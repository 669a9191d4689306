/** The Direct loader: words that, executed by the board, write an instruction image
    into its cache and launch it. */
module Download {
  import opened Common
  import opened Isa

  const ICA_ADDRESS_SPACE_WORDS := 0x10_0000

  const PTR: Byte := 0
  const RSM: Byte := 2
  const EXC: Byte := 3
  const EHN: Byte := 4
  const STK: Byte := 5
  const ICA: Byte := 7
  const ICD: Byte := 8

  datatype LoaderError = ProgramTooLarge(words: nat, capacity: nat)

  /** The words and the three half-open ranges that partition them. */
  datatype Loader = Loader(words: seq<Word>, prologueEnd: nat, downloadEnd: nat) {
    predicate Partitioned() {
      0 < prologueEnd < downloadEnd < |words|
    }
  }

  function NibbleZero(nibble: Byte): AtomicOperand {
    NibbleOperand(nibble, 0)
  }

  // ---- the loader as instructions

  function Prologue(): seq<Instruction> {
    [
      CsrLowImmediate(EXC, 1, Pause),
      CsrHighImmediate(EXC, 0),
      CsrHighImmediate(RSM, 0),
      CsrLowImmediate(RSM, 1, Continue),
      TcsLowImmediate(0, 0),
      TcsLowImmediate(1, -1)
    ]
  }

  /** Clear the high address bits, then per word: address, high data bits, low data bits. */
  function Install(ich: seq<Word>, n: nat): (r: seq<Instruction>)
    requires n <= |ich| <= ICA_ADDRESS_SPACE_WORDS
    ensures |r| == 1 + 3 * n
  {
    if n == 0 then [CsrHighImmediate(ICA, 0)] else Install(ich, n - 1) + InstallOne(n - 1, ich[n - 1])
  }

  function InstallOne(address: nat, word: Word): seq<Instruction>
    requires address < ICA_ADDRESS_SPACE_WORDS
  {
    [
      CsrLowImmediate(ICA, address, Continue),
      CsrHighImmediate(ICD, word / 0x10_0000),
      CsrLowImmediate(ICD, word % 0x10_0000, Continue)
    ]
  }

  function Launch(handler: Word): seq<Instruction> {
    [
      AtomicMask(EXC, NibbleZero(0), CsrOperand(EXC), Continue),
      AtomicMask(PTR, NibbleZero(2), ImmediateOperand(0), Pause),
      CsrHighImmediate(EHN, handler / 0x10_0000),
      CsrLowImmediate(EHN, handler % 0x10_0000, Continue),
      AtomicMask(STK, NibbleZero(2), ImmediateOperand(0), Continue),
      AtomicMask(EXC, NibbleZero(1), NibbleZero(0), Pause)
    ]
  }

  /** The instruction encodes and is not the alias of a no-op. */
  predicate Encodable(i: Instruction) {
    Encode(i).Some? && !IsNopAlias(i)
  }

  predicate Plain(program: seq<Instruction>) {
    forall k :: 0 <= k < |program| ==> Encodable(program[k])
  }

  lemma PrologueIsPlain()
    ensures Plain(Prologue())
  {
  }

  lemma InstallOneIsPlain(address: nat, word: Word)
    requires address < ICA_ADDRESS_SPACE_WORDS
    ensures Plain(InstallOne(address, word))
  {
  }

  lemma NibbleMaskEncodes(destination: Byte, nibble: Byte, source: AtomicOperand, flow: FlowControl)
    requires nibble < 16 && EncodeOperand(source).Some?
    ensures Encode(AtomicMask(destination, NibbleZero(nibble), source, flow)).Some?
  {
    assert EncodeOperand(NibbleZero(nibble)) == Some((nibble * 16, 0));
  }

  lemma LaunchEncodes(handler: Word, k: nat)
    requires k < 6
    ensures Encodable(Launch(handler)[k])
  {
    LaunchAt(handler);
    match k
    case 0 => NibbleMaskEncodes(EXC, 0, CsrOperand(EXC), Continue);
    case 1 => NibbleMaskEncodes(PTR, 2, ImmediateOperand(0), Pause);
    case 2 => HandlerWritesEncode(handler);
    case 3 => HandlerWritesEncode(handler);
    case 4 => NibbleMaskEncodes(STK, 2, ImmediateOperand(0), Continue);
    case 5 => NibbleMaskEncodes(EXC, 1, NibbleZero(0), Pause);
  }

  lemma LaunchIsPlain(handler: Word)
    ensures Plain(Launch(handler))
  {
    forall k | 0 <= k < |Launch(handler)| ensures Encodable(Launch(handler)[k]) {
      LaunchEncodes(handler, k);
    }
  }

  lemma HandlerWritesEncode(handler: Word)
    ensures handler / 0x10_0000 <= HIGH_12_MAX && handler % 0x10_0000 <= LOW_20_MAX
    ensures Encode(CsrHighImmediate(EHN, handler / 0x10_0000)).Some?
    ensures Encode(CsrLowImmediate(EHN, handler % 0x10_0000, Continue)).Some?
  {
  }

  lemma LaunchAt(handler: Word)
    ensures var p := Launch(handler);
      p[0] == AtomicMask(EXC, NibbleZero(0), CsrOperand(EXC), Continue) &&
      p[1] == AtomicMask(PTR, NibbleZero(2), ImmediateOperand(0), Pause) &&
      p[2] == CsrHighImmediate(EHN, handler / 0x10_0000) &&
      p[3] == CsrLowImmediate(EHN, handler % 0x10_0000, Continue) &&
      p[4] == AtomicMask(STK, NibbleZero(2), ImmediateOperand(0), Continue) &&
      p[5] == AtomicMask(EXC, NibbleZero(1), NibbleZero(0), Pause)
  {
  }

  lemma {:induction false} InstallIsPlain(ich: seq<Word>, n: nat)
    requires n <= |ich| <= ICA_ADDRESS_SPACE_WORDS
    ensures Plain(Install(ich, n))
  {
    if n > 0 {
      InstallIsPlain(ich, n - 1);
      InstallOneIsPlain(n - 1, ich[n - 1]);
    }
  }

  function EncodePlain(program: seq<Instruction>): (ws: seq<Word>)
    requires Plain(program)
    ensures |ws| == |program|
  {
    seq(|program|, k requires 0 <= k < |program| => Encode(program[k]).value)
  }

  lemma EncodePlainAppend(p: seq<Instruction>, q: seq<Instruction>)
    requires Plain(p) && Plain(q)
    ensures Plain(p + q) && EncodePlain(p + q) == EncodePlain(p) + EncodePlain(q)
  {
  }

  /** Push each encoded instruction; the encoder never refuses one of the loader's. */
  method PushAll(words: seq<Word>, program: seq<Instruction>) returns (words': seq<Word>)
    requires Plain(program)
    ensures words' == words + EncodePlain(program)
  {
    words' := words;
    for k := 0 to |program|
      invariant words' == words + EncodePlain(program)[..k]
    {
      words' := words' + [Encode(program[k]).value];
    }
    assert EncodePlain(program)[..|program|] == EncodePlain(program);
  }

  // ---- what executing the words does

  /** Control registers, stack registers, the instruction cache, and how each instruction executed so far let the
      fetch go on.  As the ISA reference has it: CHI and CLO write the two parts of a register, CLO issues its write
      trigger, and the trigger of ICD stores ICD at address ICA (the cache port in its ICA/ICD mode). */
  datatype Machine = Machine(csr: seq<Word>, tcs: seq<Word>, memory: map<nat, Word>, flows: seq<FlowControl>) {
    predicate Ok() {
      |csr| == 0x100 && |tcs| == 0x100
    }
  }

  predicate IsNumeric(csr: Byte) {
    csr == PTR || csr == STK || csr == ICA
  }

  function Unsigned(value: int): Word {
    value % 0x1_0000_0000
  }

  function Pow4(n: nat): nat {
    if n == 0 then 1 else 4 * Pow4(n - 1)
  }

  function OperandValue(m: Machine, o: AtomicOperand): Word
    requires m.Ok()
  {
    match o
    case NibbleOperand(nibble, position) => Unsigned(nibble * Pow4(position))
    case ImmediateOperand(value) => Unsigned(value)
    case CsrOperand(csr) => m.csr[csr]
    case TcsOperand(tcs) => m.tcs[tcs]
  }

  /** A call, not a literal, so that the verifier does not unroll `Merge` bit by bit. */
  function WordBits(): nat {
    32
  }

  /** Take the bits of `source` where `mask` has a one, over `n` bits. */
  function Merge(old_: nat, mask: nat, source: nat, n: nat): nat {
    if n == 0 then 0
    else (if mask % 2 == 1 then source % 2 else old_ % 2) + 2 * Merge(old_ / 2, mask / 2, source / 2, n - 1)
  }

  function WriteCsr(m: Machine, csr: Byte, value: Word, trigger: bool): (r: Machine)
    requires m.Ok()
    ensures r.Ok()
  {
    var written := m.(csr := m.csr[csr := value]);
    if trigger && csr == ICD then written.(memory := m.memory[written.csr[ICA] := value]) else written
  }

  /** A numeric register is kept, assigned or increased; any other register takes the masked bits. */
  function MaskedWrite(m: Machine, d: Byte, mask: Word, source: Word): (r: Machine)
    requires m.Ok()
    ensures r.Ok()
  {
    if IsNumeric(d) then
      var value := if mask % 4 == 3 then Unsigned(m.csr[d] + source) else if mask % 4 == 2 then source else m.csr[d];
      WriteCsr(m, d, value, mask / 2 % 2 == 1)
    else WriteCsr(m, d, Unsigned(Merge(m.csr[d], mask, source, WordBits())), mask != 0)
  }

  function FlowAfter(i: Instruction): FlowControl {
    match i
    case Nop(flow) => flow
    case CsrHighImmediate(_, _) => Continue
    case CsrLowImmediate(_, _, flow) => flow
    case TcsLowImmediate(_, _) => Continue
    case AtomicMask(_, _, _, flow) => flow
  }

  function Step(m: Machine, i: Instruction): (r: Machine)
    requires m.Ok()
    ensures r.Ok()
  {
    Effect(m, i).(flows := m.flows + [FlowAfter(i)])
  }

  function Effect(m: Machine, i: Instruction): (r: Machine)
    requires m.Ok()
    ensures r.Ok() && r.flows == m.flows
  {
    match i
    case Nop(_) => m
    case CsrHighImmediate(d, high) => WriteCsr(m, d, high % 0x1000 * 0x10_0000 + m.csr[d] % 0x10_0000, false)
    case CsrLowImmediate(d, low, _) => WriteCsr(m, d, m.csr[d] / 0x10_0000 * 0x10_0000 + low % 0x10_0000, true)
    case TcsLowImmediate(d, value) => m.(tcs := m.tcs[d := Unsigned(value)])
    case AtomicMask(d, mask, source, _) =>
      MaskedWrite(m, d, OperandValue(m, mask), OperandValue(m, source))
  }

  function Run(m: Machine, program: seq<Instruction>): (r: Machine)
    requires m.Ok()
    ensures r.Ok()
  {
    if program == [] then m else Step(Run(m, program[..|program| - 1]), program[|program| - 1])
  }

  /** Execute words as the board does: fetch, decode, step. */
  function Execute(m: Machine, words: seq<Word>): (r: Machine)
    requires m.Ok()
    ensures r.Ok()
  {
    if words == [] then m
    else
      var before := Execute(m, words[..|words| - 1]);
      match Decode(words[|words| - 1])
      case Known(i) => Step(before, i)
      case Unknown(_) => before
  }

  lemma {:induction false} RunAppend(m: Machine, p: seq<Instruction>, q: seq<Instruction>)
    requires m.Ok()
    ensures Run(m, p + q) == Run(Run(m, p), q)
    decreases |q|
  {
    if q == [] {
      assert p + q == p;
    } else {
      assert (p + q)[..|p + q| - 1] == p + q[..|q| - 1];
      RunAppend(m, p, q[..|q| - 1]);
    }
  }

  lemma {:induction false} ExecuteAppend(m: Machine, v: seq<Word>, w: seq<Word>)
    requires m.Ok()
    ensures Execute(m, v + w) == Execute(Execute(m, v), w)
    decreases |w|
  {
    if w == [] {
      assert v + w == v;
    } else {
      assert (v + w)[..|v + w| - 1] == v + w[..|w| - 1];
      ExecuteAppend(m, v, w[..|w| - 1]);
    }
  }

  /** Executing encoded words is running the instructions they came from. */
  lemma {:induction false} ExecuteEncoded(m: Machine, program: seq<Instruction>)
    requires m.Ok() && Plain(program)
    ensures Execute(m, EncodePlain(program)) == Run(m, program)
    decreases |program|
  {
    if program != [] {
      var last := |program| - 1;
      ExecuteEncoded(m, program[..last]);
      assert EncodePlain(program)[..last] == EncodePlain(program[..last]);
      DecodeEncode(program[last], Encode(program[last]).value);
    }
  }

  /** `m` after exactly the first `n` words of the image were stored, and no other cell touched. */
  ghost predicate Stored(before: map<nat, Word>, after: map<nat, Word>, ich: seq<Word>, n: nat)
    requires n <= |ich|
  {
    && (forall k: nat :: k in after <==> k < n || k in before)
    && (forall k :: 0 <= k < n ==> after[k] == ich[k])
    && (forall k | k in before && k >= n :: after[k] == before[k])
  }

  lemma InstallOneRuns(m: Machine, address: nat, word: Word)
    requires m.Ok() && address < ICA_ADDRESS_SPACE_WORDS && m.csr[ICA] < 0x10_0000
    ensures var r := Run(m, InstallOne(address, word));
      r.csr[ICA] == address && r.memory == m.memory[address := word] && r.csr[ICD] == word
  {
    var p := InstallOne(address, word);
    var m1 := Step(m, p[0]);
    var m2 := Step(m1, p[1]);
    var m3 := Step(m2, p[2]);
    assert p[..3] == p && p[..2] + [p[2]] == p && p[..1] + [p[1]] == p[..2] && p[..1] == [p[0]];
    assert p[..2][..1] == p[..1] && p[..1][..0] == [];
    assert Run(m, p[..1]) == Step(Run(m, p[..1][..0]), p[0]) == m1;
    assert Run(m, p[..2]) == m2;
    assert m1.csr[ICA] == address;
    assert m3.csr[ICD] == word;
  }

  lemma {:induction false} InstallRuns(m: Machine, ich: seq<Word>, n: nat)
    requires m.Ok() && n <= |ich| <= ICA_ADDRESS_SPACE_WORDS
    ensures Run(m, Install(ich, n)).csr[ICA] < 0x10_0000
    ensures Stored(m.memory, Run(m, Install(ich, n)).memory, ich, n)
  {
    if n == 0 {
      InstallNothing(m, ich);
    } else {
      InstallRuns(m, ich, n - 1);
      InstallNext(m, Run(m, Install(ich, n - 1)), ich, n);
    }
  }

  lemma InstallNothing(m: Machine, ich: seq<Word>)
    requires m.Ok() && |ich| <= ICA_ADDRESS_SPACE_WORDS
    ensures Run(m, Install(ich, 0)).csr[ICA] < 0x10_0000 && Run(m, Install(ich, 0)).memory == m.memory
  {
    var p := Install(ich, 0);
    assert p[..0] == [];
    assert Run(m, p) == Step(Run(m, p[..0]), p[0]);
  }

  lemma InstallNext(m: Machine, before: Machine, ich: seq<Word>, n: nat)
    requires m.Ok() && 0 < n <= |ich| <= ICA_ADDRESS_SPACE_WORDS && before.Ok() && before == Run(m, Install(ich, n - 1))
    requires before.csr[ICA] < 0x10_0000 && Stored(m.memory, before.memory, ich, n - 1)
    ensures Run(m, Install(ich, n)).csr[ICA] < 0x10_0000
    ensures Stored(m.memory, Run(m, Install(ich, n)).memory, ich, n)
  {
    InstallSplit(ich, n);
    RunAppend(m, Install(ich, n - 1), InstallOne(n - 1, ich[n - 1]));
    InstallOneRuns(before, n - 1, ich[n - 1]);
    StoreOne(m.memory, before.memory, ich, n);
  }

  lemma InstallSplit(ich: seq<Word>, n: nat)
    requires 0 < n <= |ich| <= ICA_ADDRESS_SPACE_WORDS
    ensures Install(ich, n) == Install(ich, n - 1) + InstallOne(n - 1, ich[n - 1])
  {
  }

  lemma StoreOne(before: map<nat, Word>, middle: map<nat, Word>, ich: seq<Word>, n: nat)
    requires 0 < n <= |ich| && Stored(before, middle, ich, n - 1)
    ensures Stored(before, middle[n - 1 := ich[n - 1]], ich, n)
  {
  }

  lemma RunSplit(m: Machine, p: seq<Instruction>, k: nat)
    requires m.Ok() && k < |p|
    ensures Run(m, p[..k + 1]) == Step(Run(m, p[..k]), p[k])
  {
    assert p[..k + 1][..k] == p[..k];
  }

  lemma {:induction false} MergeNothing(old_: nat, source: nat, n: nat)
    ensures Merge(old_, 0, source, n) <= old_
    ensures old_ < Pow2(n) ==> Merge(old_, 0, source, n) == old_
  {
    if n > 0 {
      MergeNothing(old_ / 2, source / 2, n - 1);
    }
  }

  function Pow2(n: nat): nat {
    if n == 0 then 1 else 2 * Pow2(n - 1)
  }

  /** Masking with one and a zero source clears the lowest bit and keeps the rest. */
  lemma ClearLowest(old_: Word)
    ensures Merge(old_, 1, 0, WordBits()) == old_ - old_ % 2
  {
    assert Pow2(31) == 0x8000_0000 by {
      assert Pow2(8) == 0x100;
      assert Pow2(16) == 0x1_0000;
      assert Pow2(24) == 0x100_0000;
    }
    MergeNothing(old_ / 2, 0, WordBits() - 1);
  }

  lemma MergeZeroMask(old_: Word, source: Word)
    ensures Merge(old_, 0, source, WordBits()) == old_
  {
    assert Pow2(32) == 0x1_0000_0000 by {
      assert Pow2(8) == 0x100;
      assert Pow2(16) == 0x1_0000;
      assert Pow2(24) == 0x100_0000;
    }
    MergeNothing(old_, source, WordBits());
  }

  lemma TwoRun(m: Machine, i: Instruction, j: Instruction)
    requires m.Ok()
    ensures Run(m, [i, j]) == Step(Step(m, i), j)
  {
    assert [i, j][..1] == [i] && [i][..0] == [];
    assert Run(m, [i]) == Step(Run(m, []), i);
  }

  /** One control register got this value, and nothing else changed. */
  predicate Sets(m: Machine, r: Machine, d: Byte, value: Word)
    requires m.Ok()
  {
    r.csr == m.csr[d := value] && r.tcs == m.tcs && r.memory == m.memory
  }

  lemma SetsAgain(m: Machine, a: Machine, r: Machine, d: Byte, first: Word, value: Word)
    requires m.Ok() && a.Ok() && Sets(m, a, d, first) && Sets(a, r, d, value)
    ensures a.csr[d] == first && Sets(m, r, d, value)
  {
    assert m.csr[d := first][d := value] == m.csr[d := value];
  }

  lemma LowStep(m: Machine, d: Byte, low: Word, flow: FlowControl)
    requires m.Ok() && d != ICD && low < 0x10_0000
    ensures Sets(m, Step(m, CsrLowImmediate(d, low, flow)), d, m.csr[d] / 0x10_0000 * 0x10_0000 + low)
  {
  }

  lemma HighStep(m: Machine, d: Byte)
    requires m.Ok()
    ensures Sets(m, Step(m, CsrHighImmediate(d, 0)), d, m.csr[d] % 0x10_0000)
  {
  }

  lemma TwoParts(old_: Word, low: Word)
    requires low < 0x10_0000
    ensures (old_ / 0x10_0000 * 0x10_0000 + low) % 0x10_0000 == low && old_ % 0x10_0000 / 0x10_0000 == 0
  {
  }

  /** A register written in two parts, either part first, with nothing in the high one. */
  lemma LowThenHigh(m: Machine, a: Machine, d: Byte, low: Word, flow: FlowControl)
    requires m.Ok() && a.Ok() && d != ICD && low < 0x10_0000 && a == Step(m, CsrLowImmediate(d, low, flow))
    ensures Sets(m, Step(a, CsrHighImmediate(d, 0)), d, low)
  {
    var r := Step(a, CsrHighImmediate(d, 0));
    LowStep(m, d, low, flow);
    HighStep(a, d);
    TwoParts(m.csr[d], low);
    SetsAgain(m, a, r, d, m.csr[d] / 0x10_0000 * 0x10_0000 + low, a.csr[d] % 0x10_0000);
  }

  lemma HighThenLow(m: Machine, a: Machine, d: Byte, low: Word, flow: FlowControl)
    requires m.Ok() && a.Ok() && d != ICD && low < 0x10_0000 && a == Step(m, CsrHighImmediate(d, 0))
    ensures Sets(m, Step(a, CsrLowImmediate(d, low, flow)), d, low)
  {
    var r := Step(a, CsrLowImmediate(d, low, flow));
    HighStep(m, d);
    LowStep(a, d, low, flow);
    TwoParts(m.csr[d], low);
    SetsAgain(m, a, r, d, m.csr[d] % 0x10_0000, a.csr[d] / 0x10_0000 * 0x10_0000 + low);
  }

  lemma ConstantRegisters(m: Machine)
    requires m.Ok()
    ensures var r := Run(m, [TcsLowImmediate(0, 0), TcsLowImmediate(1, -1)]);
      r.csr == m.csr && r.tcs == m.tcs[0 := 0][1 := 0xFFFF_FFFF] && r.memory == m.memory
  {
    TwoRun(m, TcsLowImmediate(0, 0), TcsLowImmediate(1, -1));
    assert Unsigned(0) == 0 && Unsigned(-1) == 0xFFFF_FFFF;
  }

  lemma PrologueParts(m: Machine, a: seq<Instruction>, b: seq<Instruction>, c: seq<Instruction>)
    requires m.Ok() && Prologue() == a + b + c
    ensures Run(m, Prologue()) == Run(Run(Run(m, a), b), c)
  {
    RunAppend(m, a, b);
    RunAppend(m, a + b, c);
  }

  /** The prologue halts the core, clears every other exception, takes resume requests, and sets the two constant
      stack registers. */
  lemma PrologueRuns(m: Machine)
    requires m.Ok()
    ensures var r := Run(m, Prologue());
      IsReady(m, r)
  {
    var a := [CsrLowImmediate(EXC, 1, Pause), CsrHighImmediate(EXC, 0)];
    var b := [CsrHighImmediate(RSM, 0), CsrLowImmediate(RSM, 1, Continue)];
    var c := [TcsLowImmediate(0, 0), TcsLowImmediate(1, -1)];
    assert Prologue() == a + b + c;
    PrologueParts(m, a, b, c);
    TwoRun(m, a[0], a[1]);
    LowThenHigh(m, Step(m, a[0]), EXC, 1, Pause);
    var halted := Run(m, a);
    TwoRun(halted, b[0], b[1]);
    HighThenLow(halted, Step(halted, b[0]), RSM, 1, Continue);
    ConstantRegisters(Run(halted, b));
  }

  lemma OperandValues(m: Machine)
    requires m.Ok()
    ensures forall n: Byte :: OperandValue(m, NibbleZero(n)) == n
    ensures OperandValue(m, ImmediateOperand(0)) == 0
  {
    assert Pow4(0) == 1;
  }

  /** `AMK rd 2.0 0` zeroes a numeric register. */
  lemma ZeroNumeric(m: Machine, d: Byte, flow: FlowControl)
    requires m.Ok() && (d == PTR || d == STK)
    ensures Effect(m, AtomicMask(d, NibbleZero(2), ImmediateOperand(0), flow)) == m.(csr := m.csr[d := 0])
  {
    OperandValues(m);
  }

  /** `AMK EXC 0.0 EXC` leaves the register as it is. */
  lemma KeepException(m: Machine, flow: FlowControl)
    requires m.Ok()
    ensures Effect(m, AtomicMask(EXC, NibbleZero(0), CsrOperand(EXC), flow)) == m
  {
    OperandValues(m);
    MergeZeroMask(m.csr[EXC], m.csr[EXC]);
    FlagWrite(m, EXC, 0, m.csr[EXC], m.csr[EXC]);
    assert m.csr[EXC := m.csr[EXC]] == m.csr;
  }

  /** `AMK EXC 1.0 0.0` clears the halt bit. */
  lemma LiftHalt(m: Machine, flow: FlowControl)
    requires m.Ok()
    ensures Effect(m, AtomicMask(EXC, NibbleZero(1), NibbleZero(0),
      flow)) == m.(csr := m.csr[EXC := m.csr[EXC] - m.csr[EXC] % 2])
  {
    OperandValues(m);
    ClearLowest(m.csr[EXC]);
    FlagWrite(m, EXC, 1, 0, m.csr[EXC] - m.csr[EXC] % 2);
  }

  /** A flag register other than ICD takes the merged value. */
  lemma FlagWrite(m: Machine, d: Byte, mask: Word, source: Word, value: Word)
    requires m.Ok() && !IsNumeric(d) && d != ICD && Merge(m.csr[d], mask, source, WordBits()) == value
    ensures MaskedWrite(m, d, mask, source) == m.(csr := m.csr[d := value])
  {
  }

  lemma SetHandler(m: Machine, high: Instruction, low: Instruction, handler: Word)
    requires m.Ok() && high == CsrHighImmediate(EHN, handler / 0x10_0000)
    requires low == CsrLowImmediate(EHN, handler % 0x10_0000, Continue)
    ensures var r := Step(Step(m, high), low);
      r.csr == m.csr[EHN := handler] && r.tcs == m.tcs && r.memory == m.memory
  {
    var r := Step(Step(m, high), low);
    assert r.csr[EHN] == handler;
    assert r.csr == m.csr[EHN := handler];
  }

  /** The launch stores nothing; it resets the instruction pointer and the stack, sets the exception handler and, last,
      lifts the halt. */
  lemma LaunchRuns(m: Machine, handler: Word)
    requires m.Ok()
    ensures var r := Run(m, Launch(handler));
      && r.csr == m.csr[PTR := 0][EHN := handler][STK := 0][EXC := m.csr[EXC] - m.csr[EXC] % 2]
      && r.tcs == m.tcs && r.memory == m.memory
  {
    FirstFive(m, handler);
    LastOfSix(m, Launch(handler));
    LaunchAt(handler);
    LiftHalt(Run(m, Launch(handler)[..5]), Pause);
  }

  lemma LastOfSix(m: Machine, p: seq<Instruction>)
    requires m.Ok() && |p| == 6
    ensures Run(m, p) == Step(Run(m, p[..5]), p[5])
  {
    RunSplit(m, p, 5);
    assert p[..6] == p;
  }

  lemma FirstFive(m: Machine, handler: Word)
    requires m.Ok()
    ensures var r := Run(m, Launch(handler)[..5]);
      r.csr == m.csr[PTR := 0][EHN := handler][STK := 0] && r.tcs == m.tcs && r.memory == m.memory
  {
    LaunchAt(handler);
    FirstHalf(m, handler);
    RunSplit(m, Launch(handler), 4);
    ZeroNumeric(Run(m, Launch(handler)[..4]), STK, Continue);
  }

  lemma FirstTwo(m: Machine, handler: Word)
    requires m.Ok()
    ensures var r := Run(m, Launch(handler)[..2]);
      r.csr == m.csr[PTR := 0] && r.tcs == m.tcs && r.memory == m.memory
  {
    var p := Launch(handler);
    LaunchAt(handler);
    assert p[..0] == [];
    RunSplit(m, p, 0);
    KeepException(m, Continue);
    RunSplit(m, p, 1);
    ZeroNumeric(Run(m, p[..1]), PTR, Pause);
  }

  lemma FirstHalf(m: Machine, handler: Word)
    requires m.Ok()
    ensures var r := Run(m, Launch(handler)[..4]);
      r.csr == m.csr[PTR := 0][EHN := handler] && r.tcs == m.tcs && r.memory == m.memory
  {
    LaunchAt(handler);
    FirstTwo(m, handler);
    HandlerRuns(m, Launch(handler), handler);
  }

  lemma HandlerRuns(m: Machine, p: seq<Instruction>, handler: Word)
    requires m.Ok() && |p| >= 4 && p[2] == CsrHighImmediate(EHN, handler / 0x10_0000)
    requires p[3] == CsrLowImmediate(EHN, handler % 0x10_0000, Continue)
    ensures var before, r := Run(m, p[..2]), Run(m, p[..4]);
      r.csr == before.csr[EHN := handler] && r.tcs == before.tcs && r.memory == before.memory
  {
    RunSplit(m, p, 2);
    RunSplit(m, p, 3);
    SetHandler(Run(m, p[..2]), p[2], p[3], handler);
  }

  // ---- the whole loader

  function Whole(ich: seq<Word>, handler: Word): seq<Instruction>
    requires |ich| <= ICA_ADDRESS_SPACE_WORDS
  {
    Prologue() + Install(ich, |ich|) + Launch(handler)
  }

  lemma WholeAt(ich: seq<Word>, handler: Word, k: nat)
    requires |ich| <= ICA_ADDRESS_SPACE_WORDS && k < 13 + 3 * |ich|
    ensures |Whole(ich, handler)| == 13 + 3 * |ich|
    ensures Whole(ich, handler)[k] == if k < 6 then Prologue()[k]
      else if k < 7 + 3 * |ich| then Install(ich, |ich|)[k - 6] else Launch(handler)[k - 7 - 3 * |ich|]
  {
  }

  /** The three instructions for word number `j` of the image. */
  lemma {:induction false} InstallAt(ich: seq<Word>, n: nat, j: nat, i: nat)
    requires n <= |ich| <= ICA_ADDRESS_SPACE_WORDS && j < n && i < 3
    ensures Install(ich, n)[1 + 3 * j + i] == InstallOne(j, ich[j])[i]
  {
    if j < n - 1 {
      InstallAt(ich, n - 1, j, i);
    }
  }

  lemma {:induction false} InstallFirst(ich: seq<Word>, n: nat)
    requires n <= |ich| <= ICA_ADDRESS_SPACE_WORDS
    ensures Install(ich, n)[0] == CsrHighImmediate(ICA, 0)
  {
    if n > 0 {
      InstallFirst(ich, n - 1);
    }
  }

  /** The control register an instruction writes. */
  function Target(i: Instruction): Option<Byte> {
    match i
    case CsrHighImmediate(d, _) => Some(d)
    case CsrLowImmediate(d, _, _) => Some(d)
    case AtomicMask(d, _, _, _) => Some(d)
    case _ => None
  }

  /** Words of the install range write the two registers of the cache port and always let the fetch go on. */
  lemma InstallTargets(ich: seq<Word>, k: nat)
    requires |ich| <= ICA_ADDRESS_SPACE_WORDS && k <= 3 * |ich|
    ensures var i := Install(ich, |ich|)[k];
      (Target(i) == Some(ICA) || Target(i) == Some(ICD)) && FlowAfter(i) == Continue
  {
    if k == 0 {
      InstallFirst(ich, |ich|);
    } else {
      var j, i := (k - 1) / 3, (k - 1) % 3;
      assert k == 1 + 3 * j + i;
      InstallAt(ich, |ich|, j, i);
    }
  }

  /** The program writes none but these control registers, and no stack register. */
  predicate WritesOnly(program: seq<Instruction>, targets: set<Byte>) {
    forall k :: 0 <= k < |program| ==> Target(program[k]).Some? && Target(program[k]).value in targets
  }

  lemma {:induction false} RunKeeps(m: Machine, program: seq<Instruction>, targets: set<Byte>)
    requires m.Ok() && WritesOnly(program, targets)
    ensures Run(m, program).tcs == m.tcs
    ensures forall d: Byte :: d !in targets ==> Run(m, program).csr[d] == m.csr[d]
    decreases |program|
  {
    if program != [] {
      var last := |program| - 1;
      assert forall k :: 0 <= k < last ==> program[..last][k] == program[k];
      RunKeeps(m, program[..last], targets);
      StepKeeps(Run(m, program[..last]), program[last]);
    }
  }

  lemma StepKeeps(m: Machine, i: Instruction)
    requires m.Ok() && Target(i).Some?
    ensures Step(m, i).tcs == m.tcs && forall d: Byte :: d != Target(i).value ==> Step(m, i).csr[d] == m.csr[d]
  {
  }

  /** The instruction leaves a halted core halted. */
  predicate KeepsHalt(i: Instruction) {
    || i.TcsLowImmediate?
    || (Target(i).Some? && Target(i).value != EXC)
    || i == CsrHighImmediate(EXC, 0)
    || i == AtomicMask(EXC, NibbleZero(0), CsrOperand(EXC), Continue)
  }

  lemma StepKeepsHalt(m: Machine, i: Instruction)
    requires m.Ok() && KeepsHalt(i) && m.csr[EXC] % 2 == 1
    ensures Step(m, i).csr[EXC] % 2 == 1
  {
    if i == AtomicMask(EXC, NibbleZero(0), CsrOperand(EXC), Continue) {
      KeepException(m, Continue);
    } else if i == CsrHighImmediate(EXC, 0) {
      assert m.csr[EXC] % 0x10_0000 % 2 == m.csr[EXC] % 2;
    }
  }

  lemma WholeKeepsHalt(ich: seq<Word>, handler: Word, k: nat)
    requires |ich| <= ICA_ADDRESS_SPACE_WORDS && 0 < k < 12 + 3 * |ich|
    ensures |Whole(ich, handler)| == 13 + 3 * |ich| && KeepsHalt(Whole(ich, handler)[k])
  {
    WholeAt(ich, handler, k);
    LaunchAt(handler);
    if 6 <= k < 7 + 3 * |ich| {
      InstallTargets(ich, k - 6);
    }
  }

  lemma HaltedFirst(m: Machine, p: seq<Instruction>)
    requires m.Ok() && p != [] && p[0] == CsrLowImmediate(EXC, 1, Pause)
    ensures Run(m, p[..1]).csr[EXC] % 2 == 1
  {
    assert p[..0] == [];
    RunSplit(m, p, 0);
    LowStep(m, EXC, 1, Pause);
    OddLow(m.csr[EXC], Step(m, p[0]).csr[EXC]);
  }

  lemma OddLow(old_: Word, value: Word)
    requires value == old_ / 0x10_0000 * 0x10_0000 + 1
    ensures value % 2 == 1
  {
  }

  /** Once halted, as long as the instructions keep the halt. */
  lemma {:induction false} HaltedAfter(m: Machine, p: seq<Instruction>, k: nat)
    requires m.Ok() && 0 < k <= |p| && p[0] == CsrLowImmediate(EXC, 1, Pause)
    requires forall j :: 0 < j < k ==> KeepsHalt(p[j])
    ensures Run(m, p[..k]).csr[EXC] % 2 == 1
  {
    if k == 1 {
      HaltedFirst(m, p);
    } else {
      HaltedAfter(m, p, k - 1);
      RunSplit(m, p, k - 1);
      StepKeepsHalt(Run(m, p[..k - 1]), p[k - 1]);
    }
  }

  function FlowsOf(program: seq<Instruction>): (flows: seq<FlowControl>)
    ensures |flows| == |program| && forall k :: 0 <= k < |program| ==> flows[k] == FlowAfter(program[k])
  {
    seq(|program|, k requires 0 <= k < |program| => FlowAfter(program[k]))
  }

  lemma {:induction false} RunFlows(m: Machine, program: seq<Instruction>)
    requires m.Ok()
    ensures Run(m, program).flows == m.flows + FlowsOf(program)
    decreases |program|
  {
    if program != [] {
      var last := |program| - 1;
      RunFlows(m, program[..last]);
      assert FlowsOf(program) == FlowsOf(program[..last]) + [FlowAfter(program[last])];
    }
  }

  /** The fetch pauses when the core is halted, when it is pointed at the image, and when the halt is lifted. */
  lemma WholeFlow(ich: seq<Word>, handler: Word, k: nat)
    requires |ich| <= ICA_ADDRESS_SPACE_WORDS && k < 13 + 3 * |ich|
    ensures |Whole(ich, handler)| == 13 + 3 * |ich|
    ensures FlowAfter(Whole(ich, handler)[k]) ==
      if k == 0 || k == 8 + 3 * |ich| || k == 12 + 3 * |ich| then Pause else Continue
  {
    WholeAt(ich, handler, k);
    LaunchAt(handler);
    if 6 <= k < 7 + 3 * |ich| {
      InstallTargets(ich, k - 6);
    }
  }

  lemma InstallWrites(ich: seq<Word>)
    requires |ich| <= ICA_ADDRESS_SPACE_WORDS
    ensures WritesOnly(Install(ich, |ich|), {ICA, ICD})
  {
    var p := Install(ich, |ich|);
    forall k | 0 <= k < |p| ensures Target(p[k]).Some? && Target(p[k]).value in {ICA, ICD} {
      InstallTargets(ich, k);
    }
  }

  /** The registers after the install range. */
  lemma InstalledRegisters(m: Machine, ready: Machine, installed: Machine, ich: seq<Word>)
    requires m.Ok() && ready.Ok() && installed.Ok() && |ich| <= ICA_ADDRESS_SPACE_WORDS
    requires ready.csr == m.csr[EXC := 1][RSM := 1] && installed == Run(ready, Install(ich, |ich|))
    ensures Installed(m, ready, installed)
  {
    InstallWrites(ich);
    PortKeeps(ready, Install(ich, |ich|), installed);
    KeptRegisters(m.csr, ready.csr, installed.csr);
  }

  predicate Installed(m: Machine, ready: Machine, installed: Machine)
    requires m.Ok() && ready.Ok() && installed.Ok()
  {
    && installed.csr[EXC] == 1 && installed.csr[RSM] == 1 && installed.tcs == ready.tcs
    && forall d: Byte :: d !in {EXC, RSM, ICA, ICD} ==> installed.csr[d] == m.csr[d]
  }

  lemma PortKeeps(ready: Machine, program: seq<Instruction>, installed: Machine)
    requires ready.Ok() && WritesOnly(program, {ICA, ICD}) && installed == Run(ready, program)
    ensures installed.tcs == ready.tcs && forall d: Byte :: d !in {ICA, ICD} ==> installed.csr[d] == ready.csr[d]
  {
    RunKeeps(ready, program, {ICA, ICD});
  }

  lemma KeptRegisters(before: seq<Word>, ready: seq<Word>, installed: seq<Word>)
    requires |before| == |ready| == |installed| == 0x100 && ready == before[EXC := 1][RSM := 1]
    requires forall d: Byte :: d !in {ICA, ICD} ==> installed[d] == ready[d]
    ensures installed[EXC] == 1 && installed[RSM] == 1
    ensures forall d: Byte :: d !in {EXC, RSM, ICA, ICD} ==> installed[d] == before[d]
  {
  }

  /** The registers after the launch range. */
  lemma LaunchedRegisters(m: Machine, ready: Machine, installed: Machine, handler: Word)
    requires m.Ok() && ready.Ok() && installed.Ok() && IsReady(m, ready) && Installed(m, ready, installed)
    ensures IsLaunched(m, Run(installed, Launch(handler)), handler)
    ensures Run(installed, Launch(handler)).memory == installed.memory
  {
    LaunchRuns(installed, handler);
  }

  /** Where the three parts leave the machine. */
  lemma WholeRuns(m: Machine, ich: seq<Word>, handler: Word)
    requires m.Ok() && |ich| <= ICA_ADDRESS_SPACE_WORDS
    ensures var installed := Run(m, Prologue() + Install(ich, |ich|));
      Stored(m.memory, installed.memory, ich, |ich|) && Run(m, Whole(ich, handler)).memory == installed.memory
    ensures IsLaunched(m, Run(m, Whole(ich, handler)), handler)
  {
    var ready := Run(m, Prologue());
    var installed := Run(ready, Install(ich, |ich|));
    PrologueRuns(m);
    RunAppend(m, Prologue(), Install(ich, |ich|));
    RunAppend(m, Prologue() + Install(ich, |ich|), Launch(handler));
    InstallRuns(ready, ich, |ich|);
    InstalledRegisters(m, ready, installed, ich);
    LaunchedRegisters(m, ready, installed, handler);
  }

  lemma WholeIsPlain(ich: seq<Word>, handler: Word)
    requires |ich| <= ICA_ADDRESS_SPACE_WORDS
    ensures Plain(Whole(ich, handler)) && Plain(Prologue()) && Plain(Install(ich, |ich|)) && Plain(Launch(handler))
    ensures EncodePlain(Whole(ich, handler))
         == EncodePlain(Prologue()) + EncodePlain(Install(ich, |ich|)) + EncodePlain(Launch(handler))
  {
    PrologueIsPlain();
    InstallIsPlain(ich, |ich|);
    LaunchIsPlain(handler);
    EncodePlainAppend(Prologue(), Install(ich, |ich|));
    EncodePlainAppend(Prologue() + Install(ich, |ich|), Launch(handler));
  }

  lemma ExecutePrefix(m: Machine, program: seq<Instruction>, k: nat)
    requires m.Ok() && Plain(program) && k <= |program|
    ensures Execute(m, EncodePlain(program)[..k]) == Run(m, program[..k])
  {
    assert EncodePlain(program)[..k] == EncodePlain(program[..k]);
    ExecuteEncoded(m, program[..k]);
  }

  // ---- what the loader is for

  /** The words, one by one: six that set the core up, one that clears the high address bits, three for every word of
      the image with its address and its two parts, and six that launch it. */
  ghost predicate LoaderWords(ich: seq<Word>, handler: Word, words: seq<Word>) {
    && |words| == 13 + 3 * |ich| && |ich| <= 0x10_0000
    && words[..7] == [0x03B0_0001, 0x0380_0000, 0x0280_0000, 0x0290_0001, 0x0020_0000, 0x012F_FFFF, 0x0780_0000]
    && (forall k :: 0 <= k < |ich| ==>
      && words[7 + 3 * k] == 0x0790_0000 + k
      && words[8 + 3 * k] == 0x0880_0000 + ich[k] / 0x10_0000
      && words[9 + 3 * k] == 0x0890_0000 + ich[k] % 0x10_0000)
    && words[7 + 3 * |ich|..] == [0x03D4_0003, 0x00F1_2000, 0x0480_0000 + handler / 0x10_0000,
      0x0490_0000 + handler % 0x10_0000, 0x05D1_2000, 0x03F0_1000]
  }

  /** After the prologue the core is halted with every exception cleared, takes resume requests, and has the two
      constant stack registers; nothing else has changed. */
  ghost predicate IsReady(m: Machine, ready: Machine)
    requires m.Ok()
  {
    && ready.csr == m.csr[EXC := 1][RSM := 1] && ready.tcs == m.tcs[0 := 0][1 := 0xFFFF_FFFF]
    && ready.memory == m.memory
  }

  /** The core is halted from after the first word until before the last. */
  ghost predicate HaltedThroughout(m: Machine, words: seq<Word>)
    requires m.Ok()
  {
    forall k :: 0 < k < |words| ==> Execute(m, words[..k]).csr[EXC] % 2 == 1
  }

  /** In the end the core is no longer halted, points at address 0 with an empty stack, and has the handler installed;
      no register has changed but these and those of the cache port. */
  ghost predicate IsLaunched(m: Machine, end: Machine, handler: Word)
    requires m.Ok() && end.Ok()
  {
    && end.csr[EXC] == 0 && end.csr[RSM] == 1 && end.csr[PTR] == 0 && end.csr[STK] == 0 && end.csr[EHN] == handler
    && end.tcs == m.tcs[0 := 0][1 := 0xFFFF_FFFF]
    && forall d: Byte :: d !in {EXC, RSM, PTR, STK, EHN, ICA, ICD} ==> end.csr[d] == m.csr[d]
  }

  /** What executing the words does to any machine. By the end of the download range the cache holds the image from
      address 0 on, and no other cell is touched then or later, while the core is halted. The fetch pauses where the
      core is halted, pointed elsewhere, and resumed. */
  ghost predicate LoaderWorks(m: Machine, ich: seq<Word>, handler: Word, l: Loader)
    requires m.Ok() && l.prologueEnd <= l.downloadEnd <= |l.words|
  {
    var installed, end := Execute(m, l.words[..l.downloadEnd]), Execute(m, l.words);
    && IsReady(m, Execute(m, l.words[..l.prologueEnd])) && HaltedThroughout(m, l.words)
    && Stored(m.memory, installed.memory, ich, |ich|) && end.memory == installed.memory
    && IsLaunched(m, end, handler) && end.flows == m.flows + LoaderFlows(|l.words|)
  }

  /** A pause after the first word, the fifth from the end and the last, and none elsewhere. */
  function LoaderFlows(n: nat): (flows: seq<FlowControl>)
    ensures |flows| == n && forall k :: 0 <= k < n ==>
      flows[k] == if k == 0 || k == n - 5 || k == n - 1 then Pause else Continue
  {
    seq(n, k => if k == 0 || k == n - 5 || k == n - 1 then Pause else Continue)
  }

  lemma WholeIsHalted(m: Machine, ich: seq<Word>, handler: Word)
    requires m.Ok() && |ich| <= ICA_ADDRESS_SPACE_WORDS && Plain(Whole(ich, handler))
    ensures HaltedThroughout(m, EncodePlain(Whole(ich, handler)))
  {
    var p := Whole(ich, handler);
    WholeAt(ich, handler, 0);
    forall j | 0 < j < |p| - 1 ensures KeepsHalt(p[j]) {
      WholeKeepsHalt(ich, handler, j);
    }
    forall k | 0 < k < |p| ensures Execute(m, EncodePlain(p)[..k]).csr[EXC] % 2 == 1 {
      ExecutePrefix(m, p, k);
      HaltedAfter(m, p, k);
    }
  }

  lemma PrefixesOf(ich: seq<Word>, handler: Word)
    requires |ich| <= ICA_ADDRESS_SPACE_WORDS
    ensures var p := Whole(ich, handler);
      && |p| == 13 + 3 * |ich| && p[..6] == Prologue()
      && p[..7 + 3 * |ich|] == Prologue() + Install(ich, |ich|) && p[..|p|] == p
  {
  }

  /** For every image that passes the size checks, and every machine, the loader does what it is for. */
  lemma LoaderInstallsImage(ich: seq<Word>, handler: Word, l: Loader, m: Machine)
    requires m.Ok() && |ich| <= ICA_ADDRESS_SPACE_WORDS && Plain(Whole(ich, handler))
    requires l == Loader(EncodePlain(Whole(ich, handler)), 6, 7 + 3 * |ich|)
    ensures l.downloadEnd <= |l.words| && LoaderWorks(m, ich, handler, l)
  {
    var p := Whole(ich, handler);
    PrefixesOf(ich, handler);
    ExecutePrefix(m, p, 6);
    ExecutePrefix(m, p, 7 + 3 * |ich|);
    ExecutePrefix(m, p, |p|);
    assert l.words[..|l.words|] == l.words;
    PrologueRuns(m);
    WholeRuns(m, ich, handler);
    WholeIsHalted(m, ich, handler);
    RunFlows(m, p);
    WholeFlows(ich, handler);
  }

  lemma WholeFlows(ich: seq<Word>, handler: Word)
    requires |ich| <= ICA_ADDRESS_SPACE_WORDS
    ensures FlowsOf(Whole(ich, handler)) == LoaderFlows(|Whole(ich, handler)|)
  {
    forall k | 0 <= k < |Whole(ich, handler)|
      ensures FlowsOf(Whole(ich, handler))[k] == LoaderFlows(|Whole(ich, handler)|)[k]
    {
      WholeFlow(ich, handler, k);
    }
  }

  lemma PrologueWords()
    ensures Plain(Prologue()) && EncodePlain(Prologue()) == [0x03B0_0001, 0x0380_0000, 0x0280_0000, 0x0290_0001,
      0x0020_0000, 0x012F_FFFF]
  {
    PrologueIsPlain();
    ImmediateFormats(EXC, 0, 1, 0, Pause);
    ImmediateFormats(RSM, 0, 1, 0, Continue);
    ImmediateFormats(0, 0, 0, 0, Continue);
    ImmediateFormats(1, 0, 0, 0, Continue);
  }

  lemma InstallOneWords(address: nat, word: Word)
    requires address < ICA_ADDRESS_SPACE_WORDS
    ensures Plain(InstallOne(address, word)) && EncodePlain(InstallOne(address, word)) ==
      [0x0790_0000 + address, 0x0880_0000 + word / 0x10_0000, 0x0890_0000 + word % 0x10_0000]
  {
    InstallOneIsPlain(address, word);
    ImmediateFormats(ICA, 0, address, 0, Continue);
    ImmediateFormats(ICD, word / 0x10_0000, word % 0x10_0000, 0, Continue);
  }

  lemma ZeroBits(o: AtomicOperand)
    requires o == NibbleZero(0)
    ensures EncodeOperand(o) == Some((0, 0))
  {
  }

  lemma OneBits(o: AtomicOperand)
    requires o == NibbleZero(1)
    ensures EncodeOperand(o) == Some((0x10, 0))
  {
  }

  lemma TwoBits(o: AtomicOperand)
    requires o == NibbleZero(2)
    ensures EncodeOperand(o) == Some((0x20, 0))
  {
  }

  lemma HaltKeptWord(i: Instruction, mask: AtomicOperand)
    requires i == AtomicMask(EXC, mask, CsrOperand(EXC), Continue) && EncodeOperand(mask) == Some((0, 0))
    ensures Encode(i) == Some(0x03D4_0003)
  {
  }

  lemma ZeroWord(i: Instruction, d: Byte, mask: AtomicOperand, source: AtomicOperand, flow: FlowControl)
    requires i == AtomicMask(d, mask, source, flow) && flow != Halt
    requires EncodeOperand(mask) == Some((0x20, 0)) && EncodeOperand(source) == Some((0, 1))
    ensures Encode(i) == Some(d * 0x100_0000 + if flow == Pause then 0xF1_2000 else 0xD1_2000)
  {
  }

  lemma HaltLiftedWord(i: Instruction, mask: AtomicOperand, source: AtomicOperand)
    requires i == AtomicMask(EXC, mask, source, Pause)
    requires EncodeOperand(mask) == Some((0x10, 0)) && EncodeOperand(source) == Some((0, 0))
    ensures Encode(i) == Some(0x03F0_1000)
  {
  }

  lemma HandlerWords(handler: Word)
    ensures Encode(CsrHighImmediate(EHN, handler / 0x10_0000)) == Some(0x0480_0000 + handler / 0x10_0000)
    ensures Encode(CsrLowImmediate(EHN, handler % 0x10_0000, Continue)) == Some(0x0490_0000 + handler % 0x10_0000)
  {
    ImmediateFormats(EHN, handler / 0x10_0000, handler % 0x10_0000, 0, Continue);
  }

  lemma KeepWord(i: Instruction)
    requires i == AtomicMask(EXC, NibbleZero(0), CsrOperand(EXC), Continue)
    ensures Encode(i) == Some(0x03D4_0003)
  {
    ZeroBits(i.mask);
    HaltKeptWord(i, i.mask);
  }

  lemma ResetWord(i: Instruction, d: Byte, flow: FlowControl)
    requires i == AtomicMask(d, NibbleZero(2), ImmediateOperand(0), flow) && flow != Halt
    ensures Encode(i) == Some(d * 0x100_0000 + if flow == Pause then 0xF1_2000 else 0xD1_2000)
  {
    TwoBits(i.mask);
    ZeroWord(i, d, i.mask, i.source, flow);
  }

  lemma LiftWord(i: Instruction)
    requires i == AtomicMask(EXC, NibbleZero(1), NibbleZero(0), Pause)
    ensures Encode(i) == Some(0x03F0_1000)
  {
    OneBits(i.mask);
    ZeroBits(i.source);
    HaltLiftedWord(i, i.mask, i.source);
  }

  /** The words of the launch, instruction by instruction. */
  lemma LaunchEncoded(handler: Word, p: seq<Instruction>, ws: seq<Word>)
    requires p == Launch(handler) && |ws| == 6 && ws[0] == 0x03D4_0003 && ws[1] == 0x00F1_2000
    requires ws[2] == 0x0480_0000 + handler / 0x10_0000 && ws[3] == 0x0490_0000 + handler % 0x10_0000
    requires ws[4] == 0x05D1_2000 && ws[5] == 0x03F0_1000
    ensures |p| == 6 && Encode(p[0]) == Some(ws[0]) && Encode(p[1]) == Some(ws[1]) && Encode(p[2]) == Some(ws[2])
    ensures Encode(p[3]) == Some(ws[3]) && Encode(p[4]) == Some(ws[4]) && Encode(p[5]) == Some(ws[5])
  {
    LaunchAt(handler);
    KeepWord(p[0]);
    ResetWord(p[1], PTR, Pause);
    HandlerWords(handler);
    ResetWord(p[4], STK, Continue);
    LiftWord(p[5]);
  }

  lemma SixWords(p: seq<Instruction>, ws: seq<Word>)
    requires |p| == |ws| == 6 && Plain(p) && Encode(p[0]) == Some(ws[0]) && Encode(p[1]) == Some(ws[1])
    requires Encode(p[2]) == Some(ws[2]) && Encode(p[3]) == Some(ws[3]) && Encode(p[4]) == Some(ws[4])
    requires Encode(p[5]) == Some(ws[5])
    ensures EncodePlain(p) == ws
  {
  }

  lemma LaunchWords(handler: Word, p: seq<Instruction>, ws: seq<Word>)
    requires p == Launch(handler) && ws == [0x03D4_0003, 0x00F1_2000, 0x0480_0000 + handler / 0x10_0000,
      0x0490_0000 + handler % 0x10_0000, 0x05D1_2000, 0x03F0_1000]
    ensures Plain(p) && EncodePlain(p) == ws
  {
    LaunchIsPlain(handler);
    LaunchEncoded(handler, p, ws);
    SixWords(p, ws);
  }

  /** The words that install the first n words of an image, as numerals. */
  ghost predicate InstallingWords(ich: seq<Word>, n: nat, ws: seq<Word>)
    requires n <= |ich|
  {
    && |ws| == 1 + 3 * n && ws[0] == 0x0780_0000
    && forall k :: 0 <= k < n ==>
      && ws[1 + 3 * k] == 0x0790_0000 + k
      && ws[2 + 3 * k] == 0x0880_0000 + ich[k] / 0x10_0000 && ws[3 + 3 * k] == 0x0890_0000 + ich[k] % 0x10_0000
  }

  lemma {:induction false} InstallWords(ich: seq<Word>, n: nat)
    requires n <= |ich| <= ICA_ADDRESS_SPACE_WORDS && Plain(Install(ich, n))
    ensures InstallingWords(ich, n, EncodePlain(Install(ich, n)))
  {
    if n == 0 {
      ImmediateFormats(ICA, 0, 0, 0, Continue);
    } else {
      InstallIsPlain(ich, n - 1);
      InstallWords(ich, n - 1);
      InstallOneWords(n - 1, ich[n - 1]);
      EncodePlainAppend(Install(ich, n - 1), InstallOne(n - 1, ich[n - 1]));
      OneMoreWord(ich, n, EncodePlain(Install(ich, n - 1)), EncodePlain(InstallOne(n - 1, ich[n - 1])));
    }
  }

  lemma OneMoreWord(ich: seq<Word>, n: nat, before: seq<Word>, three: seq<Word>)
    requires 0 < n <= |ich| && InstallingWords(ich, n - 1, before)
    requires three == [0x0790_0000 + n - 1, 0x0880_0000 + ich[n - 1] / 0x10_0000, 0x0890_0000 + ich[n - 1] % 0x10_0000]
    ensures InstallingWords(ich, n, before + three)
  {
  }

  lemma WholeWords(ich: seq<Word>, handler: Word)
    requires |ich| <= ICA_ADDRESS_SPACE_WORDS && Plain(Whole(ich, handler))
    ensures LoaderWords(ich, handler, EncodePlain(Whole(ich, handler)))
  {
    WholeIsPlain(ich, handler);
    PrologueWords();
    InstallWords(ich, |ich|);
    LaunchWords(handler, Launch(handler), [0x03D4_0003, 0x00F1_2000, 0x0480_0000 + handler / 0x10_0000,
      0x0490_0000 + handler % 0x10_0000, 0x05D1_2000, 0x03F0_1000]);
    ThreeParts(ich, handler, EncodePlain(Prologue()), EncodePlain(Install(ich, |ich|)), EncodePlain(Launch(handler)));
  }

  lemma ThreeParts(ich: seq<Word>, handler: Word, first: seq<Word>, install: seq<Word>, last: seq<Word>)
    requires first == [0x03B0_0001, 0x0380_0000, 0x0280_0000, 0x0290_0001, 0x0020_0000, 0x012F_FFFF]
    requires |ich| <= 0x10_0000 && InstallingWords(ich, |ich|, install)
    requires last == [0x03D4_0003, 0x00F1_2000, 0x0480_0000 + handler / 0x10_0000,
      0x0490_0000 + handler % 0x10_0000, 0x05D1_2000, 0x03F0_1000]
    ensures LoaderWords(ich, handler, first + install + last)
  {
    var words := first + install + last;
    assert forall k :: 0 <= k < |install| ==> words[6 + k] == install[k];
    assert words[..7] == words[..6] + [words[6 + 0]];
  }

  /** A loader of the image: its ranges, its words, and what they do to every machine. */
  ghost predicate IsLoader(ich: seq<Word>, handler: Word, l: Loader) {
    && l.Partitioned() && l.prologueEnd == 6 && l.downloadEnd == 7 + 3 * |ich|
    && LoaderWords(ich, handler, l.words)
    && forall m: Machine | m.Ok() :: LoaderWorks(m, ich, handler, l)
  }

  lemma WholeIsLoader(ich: seq<Word>, handler: Word, l: Loader)
    requires |ich| <= ICA_ADDRESS_SPACE_WORDS && Plain(Whole(ich, handler))
    requires l == Loader(EncodePlain(Whole(ich, handler)), 6, 7 + 3 * |ich|)
    ensures IsLoader(ich, handler, l)
  {
    WholeAt(ich, handler, 0);
    WholeWords(ich, handler);
    forall m: Machine | m.Ok() ensures LoaderWorks(m, ich, handler, l) {
      LoaderInstallsImage(ich, handler, l, m);
    }
  }

  /** Push the three parts. */
  method PushLoader(ich: seq<Word>, handler: Word) returns (l: Loader)
    requires |ich| <= ICA_ADDRESS_SPACE_WORDS && Plain(Prologue()) && Plain(Launch(handler))
    ensures Plain(Install(ich, |ich|)) && l.prologueEnd == 6 && l.downloadEnd == 7 + 3 * |ich|
    ensures l.words == EncodePlain(Prologue()) + EncodePlain(Install(ich, |ich|)) + EncodePlain(Launch(handler))
  {
    var words := PushAll([], Prologue());
    var prologueEnd := |words|;
    ghost var prologue := words;
    InstallIsPlain(ich, 0);
    words := PushAll(words, Install(ich, 0));
    for k := 0 to |ich|
      invariant Plain(Install(ich, k)) && words == prologue + EncodePlain(Install(ich, k))
    {
      InstallOneIsPlain(k, ich[k]);
      EncodePlainAppend(Install(ich, k), InstallOne(k, ich[k]));
      words := PushAll(words, InstallOne(k, ich[k]));
    }
    var downloadEnd := |words|;
    words := PushAll(words, Launch(handler));
    l := Loader(words, prologueEnd, downloadEnd);
  }

  /** The loader is refused exactly when the image exceeds the capacity or the address space. */
  method MaterializeDownloadLoader(ich: seq<Word>, capacity: nat, handler: Word)
    returns (r: Result<Loader, LoaderError>)
    ensures r.Ok? <==> |ich| <= capacity && |ich| <= ICA_ADDRESS_SPACE_WORDS
    ensures r.Err? ==> r.error == ProgramTooLarge(|ich|,
      if |ich| > capacity || capacity < ICA_ADDRESS_SPACE_WORDS then capacity else ICA_ADDRESS_SPACE_WORDS)
    ensures r.Ok? ==> IsLoader(ich, handler, r.value)
  {
    if |ich| > capacity {
      return Err(ProgramTooLarge(|ich|, capacity));
    }
    if |ich| > ICA_ADDRESS_SPACE_WORDS {
      return Err(ProgramTooLarge(|ich|, if capacity < ICA_ADDRESS_SPACE_WORDS then capacity
        else ICA_ADDRESS_SPACE_WORDS));
    }
    WholeIsPlain(ich, handler);
    var l := PushLoader(ich, handler);
    WholeIsLoader(ich, handler, l);
    r := Ok(l);
  }
}
