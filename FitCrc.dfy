/**
 * The FIT file CRC-16.
 *
 * `fit_crc_get16` folds one byte into a 16-bit register with two nibble-table
 * lookups. It appears twice in the repository: in utils.py and, as a verbatim
 * copy with its own table literal, in app.py. Its documentation shows the byte
 * fold `calculate_fit_crc`, which starts from 0.
 *
 * The step is proved equal to the bitwise CRC-16/ARC register update: xor the
 * byte in, then shift right eight times, xor-ing in the reflected polynomial
 * 0xA001 whenever a one bit falls out. From that, or directly from the table
 * algebra, follow the properties a FIT reader relies on: a run of zero bytes
 * leaves a zero register unchanged, and appending a block's CRC, low byte first,
 * brings the register back to 0.
 *
 * The source's arguments are unbounded non-negative Python integers, documented
 * as a 16-bit register and an 8-bit byte. Here they are 32-bit words. That is
 * wide enough to show that bits above the documented widths are ignored.
 */
module FitCrc {

  // ---------------------------------------------------------------------------
  // The step as written

  /** The sixteen-entry table of `fit_crc_get16` in utils.py, indexed by a nibble. */
  function CrcTable(i: bv32): (r: bv32)
    ensures r <= 0xFFFF
  {
    match i
    case 0 => 0x0000 case 1 => 0xCC01 case 2 => 0xD801 case 3 => 0x1400
    case 4 => 0xF001 case 5 => 0x3C00 case 6 => 0x2800 case 7 => 0xE401
    case 8 => 0xA001 case 9 => 0x6C00 case 10 => 0x7800 case 11 => 0xB401
    case 12 => 0x5000 case 13 => 0x9C01 case 14 => 0x8801 case _ => 0x4400
  }

  /** One half of the step: look up the register's low nibble, shift, mix in a nibble. */
  function NibbleStep(crc: bv32, nibble: bv32): bv32
  {
    var tmp := CrcTable(crc & 0xF);
    var shifted := (crc >> 4) & 0x0FFF;
    shifted ^ tmp ^ CrcTable(nibble)
  }

  /** `fit_crc_get16` of utils.py: the byte's low nibble, then its high nibble. */
  function FitCrcGet16(crc: bv32, byte: bv32): (r: bv32)
    ensures r <= 0xFFFF
  {
    NibbleStep(NibbleStep(crc, byte & 0xF), (byte >> 4) & 0xF)
  }

  /** The table literal of the copy of `fit_crc_get16` in app.py. */
  function AppCrcTable(i: bv32): (r: bv32)
  {
    match i
    case 0 => 0x0000 case 1 => 0xCC01 case 2 => 0xD801 case 3 => 0x1400
    case 4 => 0xF001 case 5 => 0x3C00 case 6 => 0x2800 case 7 => 0xE401
    case 8 => 0xA001 case 9 => 0x6C00 case 10 => 0x7800 case 11 => 0xB401
    case 12 => 0x5000 case 13 => 0x9C01 case 14 => 0x8801 case _ => 0x4400
  }

  /** One half of the copy in app.py, against its own table. */
  function AppNibbleStep(crc: bv32, nibble: bv32): bv32
  {
    var tmp := AppCrcTable(crc & 0xF);
    var shifted := (crc >> 4) & 0x0FFF;
    shifted ^ tmp ^ AppCrcTable(nibble)
  }

  /** The copy of `fit_crc_get16` in app.py. */
  function AppFitCrcGet16(crc: bv32, byte: bv32): bv32
  {
    AppNibbleStep(AppNibbleStep(crc, byte & 0xF), (byte >> 4) & 0xF)
  }

  /** The register after folding `data` into it from 0, one byte at a time. */
  function Crc(data: seq<bv8>): bv32
  {
    if |data| == 0 then 0 else FitCrcGet16(Crc(data[..|data| - 1]), data[|data| - 1] as bv32)
  }

  /** `calculate_fit_crc` from the documentation of `fit_crc_get16`. */
  method CalculateFitCrc(data: seq<bv8>) returns (crc: bv32)
    ensures crc == Crc(data)
    ensures crc <= 0xFFFF
  {
    crc := 0;
    for i := 0 to |data|
      invariant crc == Crc(data[..i])
    {
      assert data[..i + 1][..i] == data[..i];
      crc := FitCrcGet16(crc, data[i] as bv32);
    }
    assert data[..|data|] == data;
  }

  // ---------------------------------------------------------------------------
  // Properties of the step as written

  /** The two copies of the table are the same table. */
  lemma AppCrcTableAgrees(i: bv32)
    ensures AppCrcTable(i) == CrcTable(i)
  {
    if i == 0 {} else if i == 1 {} else if i == 2 {} else if i == 3 {}
    else if i == 4 {} else if i == 5 {} else if i == 6 {} else if i == 7 {}
    else if i == 8 {} else if i == 9 {} else if i == 10 {} else if i == 11 {}
    else if i == 12 {} else if i == 13 {} else if i == 14 {} else {}
  }

  lemma AppNibbleStepAgrees(crc: bv32, nibble: bv32)
    ensures AppNibbleStep(crc, nibble) == NibbleStep(crc, nibble)
  {
    AppCrcTableAgrees(crc & 0xF);
    AppCrcTableAgrees(nibble);
  }

  /** The copy in app.py computes the same register as the one in utils.py, on every input. */
  lemma AppFitCrcGet16Agrees(crc: bv32, byte: bv32)
    ensures AppFitCrcGet16(crc, byte) == FitCrcGet16(crc, byte)
  {
    AppNibbleStepAgrees(crc, byte & 0xF);
    AppNibbleStepAgrees(NibbleStep(crc, byte & 0xF), (byte >> 4) & 0xF);
  }

  /** Only the low 16 bits of the register and the low 8 bits of the byte matter. */
  lemma FitCrcGet16LowBits(crc: bv32, byte: bv32)
    ensures FitCrcGet16(crc, byte) == FitCrcGet16(crc & 0xFFFF, byte & 0xFF)
  {
    assert (crc & 0xFFFF) & 0xF == crc & 0xF;
    assert ((crc & 0xFFFF) >> 4) & 0x0FFF == (crc >> 4) & 0x0FFF;
    assert (byte & 0xFF) & 0xF == byte & 0xF;
    assert ((byte & 0xFF) >> 4) & 0xF == (byte >> 4) & 0xF;
  }

  /** Folding zero bytes into a zero register leaves it zero: `table[0]` is 0. */
  lemma {:induction false} CrcOfZeros(data: seq<bv8>)
    ensures (forall i | 0 <= i < |data| :: data[i] == 0) ==> Crc(data) == 0
  {
    if |data| > 0 && forall i | 0 <= i < |data| :: data[i] == 0 {
      CrcOfZeros(data[..|data| - 1]);
      assert FitCrcGet16(0, 0) == 0;
    }
  }

  /** A nibble step whose nibble is the register's own low nibble only shifts. */
  lemma NibbleStepCancels(crc: bv32, nibble: bv32)
    ensures nibble < 16 && nibble == crc & 0xF ==> NibbleStep(crc, nibble) == (crc >> 4) & 0x0FFF
  {}

  lemma ResidueBits(c: bv32)
    requires c <= 0xFFFF
    ensures (c & 0xFF) & 0xF == c & 0xF
    ensures ((c & 0xFF) >> 4) & 0xF == ((c >> 4) & 0x0FFF) & 0xF
    ensures (((c >> 4) & 0x0FFF) >> 4) & 0x0FFF == c >> 8
    ensures (c >> 8) & 0xF == (c >> 8) & 0xF && ((c >> 8) >> 4) & 0xF == (((c >> 8) >> 4) & 0x0FFF) & 0xF
    ensures ((((c >> 8) >> 4) & 0x0FFF) >> 4) & 0x0FFF == 0
  {}

  /**
   * Feeding a register its own value, low byte first, clears it. This is why a
   * FIT reader that folds a block together with its trailing CRC expects 0.
   */
  lemma FitCrcGet16Residue(c: bv32)
    requires c <= 0xFFFF
    ensures FitCrcGet16(FitCrcGet16(c, c & 0xFF), c >> 8) == 0
  {
    ResidueBits(c);
    NibbleStepCancels(c, (c & 0xFF) & 0xF);
    var c1 := (c >> 4) & 0x0FFF;
    NibbleStepCancels(c1, ((c & 0xFF) >> 4) & 0xF);
    var c2 := c >> 8;
    NibbleStepCancels(c2, c2 & 0xF);
    var c3 := (c2 >> 4) & 0x0FFF;
    NibbleStepCancels(c3, (c2 >> 4) & 0xF);
  }

  lemma ByteOfRegister(c: bv32)
    requires c <= 0xFFFF
    ensures ((c & 0xFF) as bv8) as bv32 == c & 0xFF
    ensures ((c >> 8) as bv8) as bv32 == c >> 8
  {}

  /** The low byte of a register, as a byte of the data stream. */
  function LowByte(c: bv32): bv8 { (c & 0xFF) as bv8 }

  /** The second byte of a register, as a byte of the data stream. */
  function HighByte(c: bv32): bv8 { ((c >> 8) & 0xFF) as bv8 }

  /** Appending the CRC of some data to it, low byte first, gives a CRC of 0. */
  lemma CrcWithTrailerIsZero(data: seq<bv8>)
    ensures Crc(data + [LowByte(Crc(data)), HighByte(Crc(data))]) == 0
  {
    var c := Crc(data);
    var withLow := data + [LowByte(c)];
    var all := withLow + [HighByte(c)];
    assert data + [LowByte(c), HighByte(c)] == all;
    assert all[..|all| - 1] == withLow;
    assert withLow[..|withLow| - 1] == data;
    ByteOfRegister(c);
    assert (c >> 8) & 0xFF == c >> 8;
    FitCrcGet16Residue(c);
  }

  // ---------------------------------------------------------------------------
  // Reference: the bitwise reflected CRC-16/ARC register update

  /**
   * One bit step: shift the register right and, when a one bit falls out, xor in
   * the reflected polynomial 0xA001. `0 - (reg & 1)` is all ones exactly when the
   * low bit is set, so the mask selects the polynomial without a branch.
   */
  function ArcShift(reg: bv32): bv32 {
    (reg >> 1) ^ (0xA001 & (0 - (reg & 1)))
  }

  /** `n` bit steps. */
  function ArcShifts(reg: bv32, n: nat): bv32
    decreases n
  {
    if n == 0 then reg else ArcShifts(ArcShift(reg), n - 1)
  }

  /** The textbook CRC-16/ARC byte update: xor the byte in, then eight bit steps. */
  function ArcUpdate(crc: bv32, byte: bv32): bv32 {
    ArcShifts(crc ^ byte, 8)
  }

  lemma ArcShiftsFour(x: bv32)
    ensures ArcShifts(x, 4) == ArcShift(ArcShift(ArcShift(ArcShift(x))))
  {
    assert ArcShifts(x, 4) == ArcShifts(ArcShift(x), 3);
    assert ArcShifts(ArcShift(x), 3) == ArcShifts(ArcShift(ArcShift(x)), 2);
  }

  /** `m + n` bit steps are `m` steps followed by `n` steps. */
  lemma {:induction false} ArcShiftsSplit(x: bv32, m: nat, n: nat)
    ensures ArcShifts(x, m + n) == ArcShifts(ArcShifts(x, m), n)
    decreases m
  {
    if m > 0 {
      ArcShiftsSplit(ArcShift(x), m - 1, n);
    }
  }

  /** On nibbles, four bit steps distribute over xor. */
  lemma ArcShifts4Linear(a: bv32, b: bv32)
    ensures a < 16 && b < 16 ==> ArcShifts(a ^ b, 4) == ArcShifts(a, 4) ^ ArcShifts(b, 4)
  {
    ArcShiftsFour(a ^ b);
    ArcShiftsFour(a);
    ArcShiftsFour(b);
  }

  /** A nibble xor-ed into bits 4..7 comes out, after four bit steps, as bits 0..3. */
  lemma ArcShifts4HighNibble(g: bv32, hi: bv32)
    ensures hi < 16 ==> ArcShifts(g ^ (hi << 4), 4) == ArcShifts(g, 4) ^ hi
  {
    ArcShiftsFour(g ^ (hi << 4));
    ArcShiftsFour(g);
  }

  /** Every table entry is four bit steps of its own index: the nibble table of 0xA001. */
  lemma CrcTableIsNibbleTable(k: bv32)
    ensures k < 16 ==> CrcTable(k) == ArcShifts(k, 4)
  {
    ArcShiftsFour(k);
  }

  lemma ArcShift4Explicit(x: bv32)
    ensures ArcShift(ArcShift(ArcShift(ArcShift(x)))) == (x >> 4) ^ CrcTable(x & 0xF)
  {}

  /** Four bit steps of any register: shift out the low nibble and xor in its table entry. */
  lemma ArcShifts4Table(x: bv32)
    ensures ArcShifts(x, 4) == (x >> 4) ^ CrcTable(x & 0xF)
  {
    ArcShiftsFour(x);
    ArcShift4Explicit(x);
  }

  /** The table is linear over xor, since four bit steps are. */
  lemma CrcTableLinear(a: bv32, b: bv32)
    ensures a < 16 && b < 16 ==> CrcTable(a ^ b) == CrcTable(a) ^ CrcTable(b)
  {
    if a < 16 && b < 16 {
      assert a ^ b < 16;
      CrcTableIsNibbleTable(a);
      CrcTableIsNibbleTable(b);
      CrcTableIsNibbleTable(a ^ b);
      ArcShifts4Linear(a, b);
    }
  }

  lemma NibbleBits(crc: bv32, n: bv32)
    ensures n < 16 ==> (crc ^ n) >> 4 == crc >> 4 && (crc ^ n) & 0xF == (crc & 0xF) ^ n
    ensures crc <= 0xFFFF ==> (crc >> 4) & 0x0FFF == crc >> 4
    ensures crc & 0xF < 16
  {}

  /** The two lookups of a nibble step merge into one, by linearity of the table. */
  lemma NibbleStepTable(crc: bv32, n: bv32)
    requires crc <= 0xFFFF && n < 16
    ensures NibbleStep(crc, n) == (crc >> 4) ^ CrcTable((crc & 0xF) ^ n)
  {
    NibbleBits(crc, n);
    CrcTableLinear(crc & 0xF, n);
  }

  lemma ArcShifts4OfNibble(crc: bv32, n: bv32)
    requires crc <= 0xFFFF && n < 16
    ensures ArcShifts(crc ^ n, 4) == (crc >> 4) ^ CrcTable((crc & 0xF) ^ n)
  {
    NibbleBits(crc, n);
    ArcShifts4Table(crc ^ n);
  }

  /** A nibble step is the nibble xor-ed in, then four bit steps. */
  lemma NibbleStepIsArcShifts4(crc: bv32, n: bv32)
    requires crc <= 0xFFFF && n < 16
    ensures NibbleStep(crc, n) == ArcShifts(crc ^ n, 4)
  {
    NibbleStepTable(crc, n);
    ArcShifts4OfNibble(crc, n);
  }

  lemma NibbleStepBound(crc: bv32, n: bv32)
    ensures NibbleStep(crc, n) <= 0xFFFF
  {}

  lemma ArcShifts4Congruent(a: bv32, b: bv32, c: bv32)
    requires a == b
    ensures ArcShifts(a ^ c, 4) == ArcShifts(b ^ c, 4)
  {}

  lemma SecondNibbleIsArcShifts4(crc: bv32, lo: bv32, hi: bv32)
    requires crc <= 0xFFFF && lo < 16 && hi < 16
    ensures NibbleStep(NibbleStep(crc, lo), hi) == ArcShifts(NibbleStep(crc, lo) ^ hi, 4)
  {
    NibbleStepBound(crc, lo);
    NibbleStepIsArcShifts4(NibbleStep(crc, lo), hi);
  }

  lemma FirstNibbleIsArcShifts4(crc: bv32, lo: bv32, hi: bv32)
    requires crc <= 0xFFFF && lo < 16
    ensures ArcShifts(NibbleStep(crc, lo) ^ hi, 4) == ArcShifts(ArcShifts(crc ^ lo, 4) ^ hi, 4)
  {
    NibbleStepIsArcShifts4(crc, lo);
    ArcShifts4Congruent(NibbleStep(crc, lo), ArcShifts(crc ^ lo, 4), hi);
  }

  /** Two nibble steps: xor the low nibble, four bit steps, xor the high nibble, four more. */
  lemma TwoNibbleSteps(crc: bv32, lo: bv32, hi: bv32)
    requires crc <= 0xFFFF && lo < 16 && hi < 16
    ensures NibbleStep(NibbleStep(crc, lo), hi) == ArcShifts(ArcShifts(crc ^ lo, 4) ^ hi, 4)
  {
    SecondNibbleIsArcShifts4(crc, lo, hi);
    FirstNibbleIsArcShifts4(crc, lo, hi);
  }

  /** Eight bit steps after xor-ing a whole byte: the high nibble can wait four steps. */
  lemma EightShiftsByNibbles(x: bv32, g: bv32, hi: bv32)
    requires hi < 16 && x == g ^ (hi << 4)
    ensures ArcShifts(x, 8) == ArcShifts(ArcShifts(g, 4) ^ hi, 4)
  {
    ArcShiftsSplit(x, 4, 4);
    ArcShifts4HighNibble(g, hi);
  }

  lemma FitCrcGet16IsArcUpdateAt(crc: bv32, byte: bv32, lo: bv32, hi: bv32, g: bv32, x: bv32)
    requires crc <= 0xFFFF && lo < 16 && hi < 16
    requires lo == byte & 0xF && hi == (byte >> 4) & 0xF
    requires g == crc ^ lo && x == crc ^ (byte & 0xFF) && x == g ^ (hi << 4)
    ensures FitCrcGet16(crc, byte) == ArcUpdate(crc, byte & 0xFF)
  {
    TwoNibbleSteps(crc, lo, hi);
    EightShiftsByNibbles(x, g, hi);
  }

  /** The two nibbles of a byte and the registers they give when xor-ed in. */
  lemma ByteNibbles(crc: bv32, byte: bv32) returns (lo: bv32, hi: bv32, g: bv32, x: bv32)
    ensures lo < 16 && hi < 16
    ensures lo == byte & 0xF && hi == (byte >> 4) & 0xF
    ensures g == crc ^ lo && x == crc ^ (byte & 0xFF) && x == g ^ (hi << 4)
  {
    lo, hi := byte & 0xF, (byte >> 4) & 0xF;
    g, x := crc ^ lo, crc ^ (byte & 0xFF);
  }

  /**
   * The table step is the CRC-16/ARC byte update: for any 16-bit register, folding
   * a byte with two nibble lookups gives the same register as eight bit steps
   * after xor-ing in the byte's low eight bits.
   */
  lemma FitCrcGet16IsArcUpdate(crc: bv32, byte: bv32)
    requires crc <= 0xFFFF
    ensures FitCrcGet16(crc, byte) == ArcUpdate(crc, byte & 0xFF)
  {
    var lo, hi, g, x := ByteNibbles(crc, byte);
    FitCrcGet16IsArcUpdateAt(crc, byte, lo, hi, g, x);
  }

  /** The CRC of some data is the CRC-16/ARC of it: a fold of the bitwise update from 0. */
  function ArcCrc(data: seq<bv8>): bv32
  {
    if |data| == 0 then 0 else ArcUpdate(ArcCrc(data[..|data| - 1]), data[|data| - 1] as bv32)
  }

  lemma {:induction false} CrcIsArcCrc(data: seq<bv8>)
    ensures Crc(data) == ArcCrc(data)
  {
    if |data| > 0 {
      var init, b := data[..|data| - 1], data[|data| - 1] as bv32;
      CrcIsArcCrc(init);
      ByteMasked(b);
      FitCrcGet16IsArcUpdate(Crc(init), b);
    }
  }

  lemma ByteMasked(b: bv32)
    requires b <= 0xFF
    ensures b & 0xFF == b
  {}
}
