/** RTMQ v2 primitive instructions: encoding into 32-bit words and decoding back. */
module Isa {
  import opened Common

  type Byte = x: nat | x < 0x100
  type Half = x: nat | x < 0x1_0000
  type Word = x: nat | x < 0x1_0000_0000
  type SignedByte = x: int | -0x80 <= x < 0x80
  type SignedWord = x: int | -0x8000_0000 <= x < 0x8000_0000

  const LOW_20_MAX := 0xF_FFFF
  const HIGH_12_MAX := 0xFFF
  const SIGNED_20_MIN := -0x8_0000
  const SIGNED_20_MAX := 0x7_FFFF

  datatype FlowControl = Continue | Halt | Pause {
    function Offset(): nat {
      match this
      case Continue => 0
      case Halt => 1
      case Pause => 2
    }
  }

  function FlowOf(offset: nat): Option<FlowControl> {
    match offset
    case 0 => Some(Continue)
    case 1 => Some(Halt)
    case 2 => Some(Pause)
    case _ => None
  }

  datatype AtomicOperand =
    | NibbleOperand(nibble: Byte, position: Byte)
    | ImmediateOperand(value: SignedByte)
    | CsrOperand(csr: Byte)
    | TcsOperand(tcs: Byte)

  datatype Instruction =
    | Nop(flow: FlowControl)
    | CsrHighImmediate(destination: Byte, high12: Half)
    | CsrLowImmediate(destination: Byte, low20: Word, flow: FlowControl)
    | TcsLowImmediate(destination: Byte, value: SignedWord)
    | AtomicMask(destination: Byte, mask: AtomicOperand, source: AtomicOperand, flow: FlowControl)

  datatype Decoded = Known(instruction: Instruction) | Unknown(word: Word)

  // Shifts and bitwise ors of disjoint fields are written as products and sums.

  /** An operand as its eight value bits and its kind. */
  function EncodeOperand(o: AtomicOperand): (r: Option<(int, int)>)
    ensures r.Some? ==> 0 <= r.value.0 < 0x100 && 0 <= r.value.1 < 4
  {
    match o
    case NibbleOperand(nibble, position) => if nibble < 16 && position < 16
      then Some((nibble * 16 + position, 0)) else None
    case ImmediateOperand(value) => Some((if value < 0 then value + 0x100 else value, 1))
    case CsrOperand(csr) => Some((csr, 2))
    case TcsOperand(tcs) => Some((tcs, 3))
  }

  function DecodeOperand(value: Byte, kind: nat): Option<AtomicOperand> {
    match kind
    case 0 => Some(NibbleOperand(value / 16, value % 16))
    case 1 => Some(ImmediateOperand(if value < 0x80 then value else value - 0x100))
    case 2 => Some(CsrOperand(value))
    case 3 => Some(TcsOperand(value))
    case _ => None
  }

  function Pack(destination: Byte, major: nat, low: nat): Word
    requires major < 16 && low <= LOW_20_MAX
  {
    destination * 0x100_0000 + major * 0x10_0000 + low
  }

  /** The two bits of an operand kind. */
  function LowBit(kind: nat): nat
    requires kind < 4
  {
    if kind == 1 || kind == 3 then 1 else 0
  }

  function HighBit(kind: nat): nat
    requires kind < 4
  {
    if kind >= 2 then 1 else 0
  }

  function PackAtomic(maskValue: Byte, maskKind: nat, sourceValue: Byte, sourceKind: nat): (low: nat)
    requires maskKind < 4 && sourceKind < 4
    ensures low <= LOW_20_MAX
  {
    HighBit(sourceKind) * 0x4_0000 + LowBit(maskKind) * 0x2_0000 + LowBit(sourceKind) * 0x1_0000 +
    maskValue * 0x100 + sourceValue
  }

  function Encode(i: Instruction): Option<Word> {
    match i
    case Nop(flow) => Some(Pack(0, 13 + flow.Offset(), 0))
    case CsrHighImmediate(destination, high) => if high > HIGH_12_MAX then None else Some(Pack(destination, 8, high))
    case CsrLowImmediate(destination, low, flow) =>
      if low > LOW_20_MAX then None else Some(Pack(destination, 9 + flow.Offset(), low))
    case TcsLowImmediate(destination, value) =>
      if value < SIGNED_20_MIN || value > SIGNED_20_MAX then None
      else Some(Pack(destination, 2, if value < 0 then value + 0x10_0000 else value))
    case AtomicMask(destination, mask, source, flow) =>
      var m := EncodeOperand(mask);
      if m.None? || (m.value.1 != 0 && m.value.1 != 3) then None
      else
        var s := EncodeOperand(source);
        if s.None? then None
        else Some(Pack(destination, 13 + flow.Offset(), PackAtomic(m.value.0, m.value.1, s.value.0, s.value.1)))
  }

  /** The fields of an atomic mask all lie in the low twenty bits. */
  function DecodeAtomicMask(destination: Byte, flowOffset: nat, low: nat): Option<Instruction> {
    var mask := DecodeOperand(low / 0x100 % 0x100, if low / 0x2_0000 % 2 == 0 then 0 else 3);
    var source := DecodeOperand(low % 0x100, low / 0x4_0000 % 4 * 2 + low / 0x1_0000 % 2);
    var flow := FlowOf(flowOffset);
    if mask.Some? && source.Some? && flow.Some?
      then Some(AtomicMask(destination, mask.value, source.value, flow.value)) else None
  }

  function DecodeFields(destination: Byte, major: nat, low: nat): Option<Instruction>
    requires major < 16 && low <= LOW_20_MAX
  {
    if 13 <= major <= 15 && destination == 0 && low == 0 then
      var flow := FlowOf(major - 13); if flow.Some? then Some(Nop(flow.value)) else None
    else if major == 8 && low <= HIGH_12_MAX then Some(CsrHighImmediate(destination, low))
    else if 9 <= major <= 11 then
      var flow := FlowOf(major - 9); if flow.Some? then Some(CsrLowImmediate(destination, low, flow.value)) else None
    else if major == 2 then Some(TcsLowImmediate(destination, if low < 0x8_0000 then low else low - 0x10_0000))
    else if 13 <= major <= 15 then DecodeAtomicMask(destination, major - 13, low)
    else None
  }

  function Decode(w: Word): Decoded {
    var instruction := DecodeFields(w / 0x100_0000, w / 0x10_0000 % 16, w % 0x10_0000);
    if instruction.Some? then Known(instruction.value) else Unknown(w)
  }

  // ---- fields

  lemma DecodePacked(destination: Byte, major: nat, low: nat)
    requires major < 16 && low <= LOW_20_MAX
    ensures var w := Pack(destination, major, low);
      Decode(w) == var i := DecodeFields(destination, major, low); if i.Some? then Known(i.value) else Unknown(w)
  {
    var w := Pack(destination, major, low);
    assert w / 0x10_0000 == destination * 16 + major;
    assert w / 0x100_0000 == destination && w / 0x10_0000 % 16 == major && w % 0x10_0000 == low;
  }

  lemma WordFromFields(w: Word)
    ensures w == Pack(w / 0x100_0000, w / 0x10_0000 % 16, w % 0x10_0000)
  {
    assert w / 0x10_0000 / 16 == w / 0x100_0000;
  }

  lemma AtomicFields(mv: Byte, mk: nat, sv: Byte, sk: nat)
    requires mk < 4 && sk < 4
    ensures var low := PackAtomic(mv, mk, sv, sk);
      low % 0x100 == sv && low / 0x100 % 0x100 == mv && low / 0x1_0000 % 2 == LowBit(sk) &&
      low / 0x2_0000 % 2 == LowBit(mk) && low / 0x4_0000 == HighBit(sk)
  {
    var low := PackAtomic(mv, mk, sv, sk);
    assert low / 0x100 == HighBit(sk) * 0x400 + LowBit(mk) * 0x200 + LowBit(sk) * 0x100 + mv;
    assert low / 0x1_0000 == HighBit(sk) * 4 + LowBit(mk) * 2 + LowBit(sk);
  }

  lemma AtomicFromFields(low: nat)
    requires low < 0x8_0000
    ensures low == low / 0x4_0000 * 0x4_0000 + low / 0x2_0000 % 2 * 0x2_0000 + low / 0x1_0000 % 2 * 0x1_0000 +
      low / 0x100 % 0x100 * 0x100 + low % 0x100
  {
    assert low / 0x2_0000 == low / 0x4_0000 * 2 + low / 0x2_0000 % 2;
    assert low / 0x1_0000 == low / 0x2_0000 * 2 + low / 0x1_0000 % 2;
    assert low / 0x100 == low / 0x1_0000 * 0x100 + low / 0x100 % 0x100;
  }

  // ---- round trips

  /** The one shape whose word is also that of a no-op. */
  predicate IsNopAlias(i: Instruction) {
    i.AtomicMask? && i.destination == 0 && i.mask == NibbleOperand(0, 0) && i.source == NibbleOperand(0, 0)
  }

  /** What an encodable instruction decodes to. */
  function Canonical(i: Instruction): Instruction {
    if IsNopAlias(i) then Nop(i.flow) else i
  }

  lemma OperandRoundTrip(o: AtomicOperand)
    requires EncodeOperand(o).Some?
    ensures DecodeOperand(EncodeOperand(o).value.0, EncodeOperand(o).value.1) == Some(o)
  {
  }

  lemma OperandReencodes(value: Byte, kind: nat)
    requires DecodeOperand(value, kind).Some?
    ensures EncodeOperand(DecodeOperand(value, kind).value) == Some((value, kind))
  {
  }

  lemma PackedZero(mv: Byte, mk: nat, sv: Byte, sk: nat)
    requires mk < 4 && sk < 4
    ensures PackAtomic(mv, mk, sv, sk) == 0 <==> mv == 0 && LowBit(mk) == 0 && sv == 0 && sk == 0
  {
  }

  lemma DecodePackedAtomic(destination: Byte, flow: FlowControl, mv: Byte, mk: nat, sv: Byte, sk: nat)
    requires (mk == 0 || mk == 3) && sk < 4
    requires DecodeOperand(mv, mk).Some? && DecodeOperand(sv, sk).Some?
    ensures DecodeAtomicMask(destination, flow.Offset(), PackAtomic(mv, mk, sv, sk))
         == Some(AtomicMask(destination, DecodeOperand(mv, mk).value, DecodeOperand(sv, sk).value, flow))
  {
    AtomicFields(mv, mk, sv, sk);
    assert HighBit(sk) % 4 * 2 + LowBit(sk) == sk;
  }

  lemma ZeroOperand(o: AtomicOperand)
    requires EncodeOperand(o).Some?
    ensures EncodeOperand(o).value.0 == 0 && EncodeOperand(o).value.1 == 0 <==> o == NibbleOperand(0, 0)
  {
  }

  lemma CanonicalAtomic(destination: Byte, mask: AtomicOperand, source: AtomicOperand, flow: FlowControl, zero: bool)
    requires zero <==> mask == NibbleOperand(0, 0) && source == NibbleOperand(0, 0)
    ensures Canonical(AtomicMask(destination, mask, source, flow))
         == if destination == 0 && zero then Nop(flow) else AtomicMask(destination, mask, source, flow)
  {
  }

  /** The three topmost major codes hold a no-op or an atomic mask. */
  lemma DecodeMajor(destination: Byte, flow: FlowControl, low: nat)
    requires low <= LOW_20_MAX
    ensures DecodeFields(destination, 13 + flow.Offset(), low)
         == if destination == 0 && low == 0 then Some(Nop(flow)) else DecodeAtomicMask(destination, flow.Offset(), low)
  {
    match flow
    case Continue =>
    case Halt =>
    case Pause =>
  }

  lemma DecodeAtomicWord(destination: Byte, mask: AtomicOperand, source: AtomicOperand, flow: FlowControl, low: nat)
    requires low <= LOW_20_MAX
    requires DecodeAtomicMask(destination, flow.Offset(), low) == Some(AtomicMask(destination, mask, source, flow))
    requires low == 0 <==> mask == NibbleOperand(0, 0) && source == NibbleOperand(0, 0)
    ensures Decode(Pack(destination, 13 + flow.Offset(), low)) ==
      Known(Canonical(AtomicMask(destination, mask, source, flow)))
  {
    CanonicalAtomic(destination, mask, source, flow, low == 0);
    DecodeMajor(destination, flow, low);
    DecodePacked(destination, 13 + flow.Offset(), low);
  }

  lemma AtomicLow(mask: AtomicOperand, source: AtomicOperand, mv: Byte, mk: nat, sv: Byte, sk: nat)
    requires EncodeOperand(mask) == Some((mv, mk)) && (mk == 0 || mk == 3) && EncodeOperand(source) == Some((sv, sk))
    ensures PackAtomic(mv, mk, sv, sk) == 0 <==> mask == NibbleOperand(0, 0) && source == NibbleOperand(0, 0)
  {
    PackedZero(mv, mk, sv, sk);
    ZeroOperand(mask);
    ZeroOperand(source);
  }

  lemma DecodeEncodeAtomic(destination: Byte, mask: AtomicOperand, source: AtomicOperand, flow: FlowControl)
    requires Encode(AtomicMask(destination, mask, source, flow)).Some?
    ensures Decode(Encode(AtomicMask(destination, mask, source,
      flow)).value) == Known(Canonical(AtomicMask(destination, mask, source, flow)))
  {
    var m, s := EncodeOperand(mask).value, EncodeOperand(source).value;
    OperandRoundTrip(mask);
    OperandRoundTrip(source);
    DecodeOfOperands(destination, mask, source, flow, m.0, m.1, s.0, s.1);
  }

  lemma DecodeOfOperands(destination: Byte, mask: AtomicOperand, source: AtomicOperand, flow: FlowControl, mv: Byte,
      mk: nat, sv: Byte, sk: nat)
    requires EncodeOperand(mask) == Some((mv, mk)) && (mk == 0 || mk == 3) && EncodeOperand(source) == Some((sv, sk))
    requires sk < 4 && DecodeOperand(mv, mk) == Some(mask) && DecodeOperand(sv, sk) == Some(source)
    ensures Decode(Pack(destination, 13 + flow.Offset(), PackAtomic(mv, mk, sv, sk)))
         == Known(Canonical(AtomicMask(destination, mask, source, flow)))
  {
    DecodePackedAtomic(destination, flow, mv, mk, sv, sk);
    AtomicLow(mask, source, mv, mk, sv, sk);
    DecodeAtomicWord(destination, mask, source, flow, PackAtomic(mv, mk, sv, sk));
  }

  /** Decoding an encodable instruction gives it back, unless it is the alias of a no-op. */
  lemma DecodeEncode(i: Instruction, w: Word)
    requires Encode(i) == Some(w)
    ensures Decode(w) == Known(Canonical(i))
  {
    match i
    case Nop(flow) => DecodePacked(0, 13 + flow.Offset(), 0);
    case CsrHighImmediate(destination, high) => DecodePacked(destination, 8, high);
    case CsrLowImmediate(destination, low, flow) => DecodePacked(destination, 9 + flow.Offset(), low);
    case TcsLowImmediate(destination, value) => DecodePacked(destination, 2, if value < 0 then value + 0x10_0000
      else value);
    case AtomicMask(destination, mask, source, flow) => DecodeEncodeAtomic(destination, mask, source, flow);
  }

  lemma AtomicReencodes(destination: Byte, flowOffset: nat, low: nat)
    requires flowOffset < 3 && low <= LOW_20_MAX && DecodeAtomicMask(destination, flowOffset, low).Some?
    ensures Encode(DecodeAtomicMask(destination, flowOffset, low).value) ==
      Some(Pack(destination, 13 + flowOffset, low))
  {
    var mk := if low / 0x2_0000 % 2 == 0 then 0 else 3;
    var sk := low / 0x4_0000 % 4 * 2 + low / 0x1_0000 % 2;
    OperandReencodes(low / 0x100 % 0x100, mk);
    OperandReencodes(low % 0x100, sk);
    assert sk < 4 && low < 0x8_0000;
    AtomicFromFields(low);
    assert HighBit(sk) == low / 0x4_0000 && LowBit(sk) == low / 0x1_0000 % 2 && LowBit(mk) == low / 0x2_0000 % 2;
  }

  /** Re-encoding a decoded word gives the same word. */
  lemma EncodeDecode(w: Word)
    requires Decode(w).Known?
    ensures Encode(Decode(w).instruction) == Some(w)
  {
    WordFromFields(w);
    var destination, major, low := w / 0x100_0000, w / 0x10_0000 % 16, w % 0x10_0000;
    if Decode(w).instruction.AtomicMask? {
      AtomicReencodes(destination, major - 13, low);
    }
  }

  /** A word is unknown exactly when no instruction encodes to it. */
  lemma UnknownIffUnencodable(w: Word)
    ensures Decode(w).Unknown? <==> forall i :: Encode(i) != Some(w)
  {
    if Decode(w).Known? {
      EncodeDecode(w);
      assert Encode(Decode(w).instruction) == Some(w);
    } else {
      forall i ensures Encode(i) != Some(w) {
        if Encode(i) == Some(w) {
          DecodeEncode(i, w);
        }
      }
    }
  }

  /** Two instructions share a word only when one is a no-op and the other its alias. */
  lemma EncodingIsInjectiveUpToAlias(i: Instruction, j: Instruction, w: Word)
    requires Encode(i) == Some(w) && Encode(j) == Some(w)
    ensures i == j || (IsNopAlias(i) && j == Nop(i.flow)) || (IsNopAlias(j) && i == Nop(j.flow))
  {
    DecodeEncode(i, w);
    DecodeEncode(j, w);
    CanonicalIsInjectiveUpToAlias(i, j);
  }

  lemma CanonicalIsInjectiveUpToAlias(i: Instruction, j: Instruction)
    requires Canonical(i) == Canonical(j)
    ensures i == j || (IsNopAlias(i) && j == Nop(i.flow)) || (IsNopAlias(j) && i == Nop(j.flow))
  {
  }

  // ---- the words themselves

  /** The formats of the ISA reference: the destination in the top byte, then the operation code, then the operand.
      High and low immediates of a control register, and the low immediate of a stack register: */
  lemma ImmediateFormats(d: Byte, high: Half, low: Word, value: SignedWord, flow: FlowControl)
    requires high <= 0xFFF && low <= 0xF_FFFF && 0 <= value <= 0x7_FFFF
    ensures Encode(CsrHighImmediate(d, high)) == Some(d * 0x100_0000 + 0x80_0000 + high)
    ensures Encode(CsrLowImmediate(d, low, flow)) == Some(d * 0x100_0000 + low +
      match flow case Continue => 0x90_0000 case Halt => 0xA0_0000 case Pause => 0xB0_0000)
    ensures Encode(TcsLowImmediate(d, value)) == Some(d * 0x100_0000 + 0x20_0000 + value)
    ensures Encode(TcsLowImmediate(d, -1 - value)) == Some(d * 0x100_0000 + 0x2F_FFFF - value)
  {
  }

  /** The eight bits of an operand, and its kind: a nibble with its position, */
  lemma NibbleFormat(o: AtomicOperand)
    requires o.NibbleOperand?
    ensures EncodeOperand(o) ==
      if o.nibble < 16 && o.position < 16 then Some((o.nibble * 0x10 + o.position, 0)) else None
  {
  }

  /** an immediate in two's complement, a control register, or a stack register. */
  lemma OperandFormats(v: Byte)
    ensures EncodeOperand(ImmediateOperand(v % 0x80)) == Some((v % 0x80, 1))
    ensures EncodeOperand(ImmediateOperand(-1 - v % 0x80)) == Some((0xFF - v % 0x80, 1))
    ensures EncodeOperand(CsrOperand(v)) == Some((v, 2)) && EncodeOperand(TcsOperand(v)) == Some((v, 3))
  {
  }

  function MaskCode(flow: FlowControl): nat {
    match flow case Continue => 0xD0_0000 case Halt => 0xE0_0000 case Pause => 0xF0_0000
  }

  function SourceBits(kind: int): nat {
    match kind case 0 => 0 case 1 => 0x1_0000 case 2 => 0x4_0000 case _ => 0x5_0000
  }

  /** Masks: operation code D, E or F by flow; the kind of the source moves two bits above the operands and the kind
      of the mask, a nibble or a stack register, one bit between them. */
  lemma MaskFormat(d: Byte, mask: AtomicOperand, source: AtomicOperand, flow: FlowControl, m: (int, int), s: (int, int))
    requires EncodeOperand(mask) == Some(m) && EncodeOperand(source) == Some(s)
    ensures m.1 != 0 && m.1 != 3 ==> Encode(AtomicMask(d, mask, source, flow)).None?
    ensures var w := d * 0x100_0000 + MaskCode(flow) + SourceBits(s.1) + m.0 * 0x100 + s.0;
      && (m.1 == 0 ==> Encode(AtomicMask(d, mask, source, flow)) == Some(w))
      && (m.1 == 3 ==> Encode(AtomicMask(d, mask, source, flow)) == Some(w + 0x2_0000))
  {
    assert (13 + flow.Offset()) * 0x10_0000 == MaskCode(flow);
    assert HighBit(s.1) * 0x4_0000 + LowBit(s.1) * 0x1_0000 == SourceBits(s.1);
  }

  /** A no-op is one of three words. */
  lemma FrozenNops(flow: FlowControl, w: Word)
    requires w == match flow case Continue => 0x00D0_0000 case Halt => 0x00E0_0000 case Pause => 0x00F0_0000
    ensures Encode(Nop(flow)) == Some(w) && Decode(w) == Known(Nop(flow))
  {
    DecodeEncode(Nop(flow), w);
  }

  /** Words that mean nothing are kept as they are: an operation code that is not used, and a mask whose
      operand has no kind. */
  lemma FrozenUnknowns()
    ensures Decode(0x1234_5678) == Unknown(0x1234_5678) && Decode(0x00DC_0000) == Unknown(0x00DC_0000)
  {
    DecodePacked(0x12, 3, 0x4_5678);
    DecodePacked(0, 13, 0xC_0000);
    assert DecodeAtomicMask(0, 0, 0xC_0000).None?;
  }

  function EncodeAll(program: seq<Instruction>): Option<seq<Word>> {
    if program == [] then Some([])
    else
      var w := Encode(program[0]);
      var ws := EncodeAll(program[1..]);
      if w.Some? && ws.Some? then Some([w.value] + ws.value) else None
  }

  function DecodeAll(ws: seq<Word>): (ds: seq<Decoded>)
    ensures |ds| == |ws|
  {
    seq(|ws|, k requires 0 <= k < |ws| => Decode(ws[k]))
  }

  /** Whole streams round trip, instruction by instruction. */
  lemma {:induction false} StreamRoundTrip(program: seq<Instruction>)
    requires EncodeAll(program).Some?
    ensures |EncodeAll(program).value| == |program|
    ensures DecodeAll(EncodeAll(program).value) == seq(|program|,
      k requires 0 <= k < |program| => Known(Canonical(program[k])))
  {
    if program != [] {
      StreamRoundTrip(program[1..]);
      var w, ws := Encode(program[0]).value, EncodeAll(program[1..]).value;
      DecodeEncode(program[0], w);
      var all := DecodeAll([w] + ws);
      assert forall k :: 0 < k < |program| ==> all[k] == DecodeAll(ws)[k - 1] && program[k] == program[1..][k - 1];
    }
  }
}
