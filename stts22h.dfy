/**
 * The register layout of the STTS22H temperature sensor.
 *
 * Only the layout is modelled: register addresses, the byte <-> record
 * mapping of the bit-field registers CTRL, STATUS and SOFTWARE_RESET, and the
 * code tables of the output-data-rate and SMBus-mode enumerations.
 *
 * Modelling assumption: bit-fields are allocated from the least significant
 * bit upwards, in declaration order (the allocation the `bitwise_t` overlay
 * relies on; C leaves it to the implementation). A field declared
 * `uint8_t f : w` holds the value of bits offset .. offset + w - 1.
 */
module STTS22H {

  import opened Options
  import opened Bytes

  /** I2C device addresses, 8-bit format. */
  const I2C_ADD_H: uint8 := 0x71
  const I2C_ADD_L: uint8 := 0x7F

  /** The value the WHOAMI register holds on a genuine device. */
  const ID: uint8 := 0xA0

  // ---------------------------------------------------------------------------
  // Register map

  datatype Register = WhoAmI | TempHLimit | TempLLimit | Ctrl | Status | TempLOut | TempHOut | SoftwareReset

  /** The address of each register; the map occupies 0x01-0x07 and 0x0C. */
  function Address(r: Register): (a: uint8)
    ensures 0x01 <= a <= 0x07 || a == 0x0C
  {
    match r
    case WhoAmI => 0x01
    case TempHLimit => 0x02
    case TempLLimit => 0x03
    case Ctrl => 0x04
    case Status => 0x05
    case TempLOut => 0x06
    case TempHOut => 0x07
    case SoftwareReset => 0x0C
  }

  /** The register at address a, if the map names one. */
  function RegisterAt(a: uint8): (r: Option<Register>)
    ensures r.Some? ==> Address(r.value) == a
    ensures r.None? ==> forall reg :: Address(reg) != a
  {
    if a == 0x01 then Some(WhoAmI)
    else if a == 0x02 then Some(TempHLimit)
    else if a == 0x03 then Some(TempLLimit)
    else if a == 0x04 then Some(Ctrl)
    else if a == 0x05 then Some(Status)
    else if a == 0x06 then Some(TempLOut)
    else if a == 0x07 then Some(TempHOut)
    else if a == 0x0C then Some(SoftwareReset)
    else None
  }

  /** No two registers share an address: looking an address up finds its register. */
  lemma AddressesDistinct(r: Register)
    ensures RegisterAt(Address(r)) == Some(r)
    ensures forall other :: other != r ==> Address(other) != Address(r)
  {
  }

  // ---------------------------------------------------------------------------
  // CTRL (0x04)

  /** `stts22h_ctrl_t`; every field is a `uint8_t` bit-field. */
  datatype CtrlReg = CtrlReg(
    oneShot: uint8,      // 1 bit
    timeOutDis: uint8,   // 1 bit
    freerun: uint8,      // 1 bit
    ifAddInc: uint8,     // 1 bit
    avg: uint8,          // 2 bits
    bdu: uint8,          // 1 bit
    lowOdrStart: uint8)  // 1 bit

  /** Every field holds a value that fits its width. */
  predicate CtrlWellFormed(c: CtrlReg)
  {
    c.oneShot <= 1 && c.timeOutDis <= 1 && c.freerun <= 1 && c.ifAddInc <= 1
    && c.avg <= 3 && c.bdu <= 1 && c.lowOdrStart <= 1
  }

  /** The fields of CTRL, in declaration order. */
  datatype CtrlField = OneShotBit | TimeOutDisBit | FreerunBit | IfAddIncBit | AvgBits | BduBit | LowOdrStartBit

  const CTRL_FIELDS: seq<CtrlField> :=
    [OneShotBit, TimeOutDisBit, FreerunBit, IfAddIncBit, AvgBits, BduBit, LowOdrStartBit]

  /** The declared width of each field. */
  function CtrlWidth(f: CtrlField): nat
  {
    if f == AvgBits then 2 else 1
  }

  /** The lowest bit of each field in the byte. */
  function CtrlOffset(f: CtrlField): nat
  {
    match f
    case OneShotBit => 0
    case TimeOutDisBit => 1
    case FreerunBit => 2
    case IfAddIncBit => 3
    case AvgBits => 4
    case BduBit => 6
    case LowOdrStartBit => 7
  }

  /** The bits of the byte a field occupies. */
  function CtrlMask(f: CtrlField): uint8
  {
    match f
    case OneShotBit => 0x01
    case TimeOutDisBit => 0x02
    case FreerunBit => 0x04
    case IfAddIncBit => 0x08
    case AvgBits => 0x30
    case BduBit => 0x40
    case LowOdrStartBit => 0x80
  }

  function SumWidths(fs: seq<CtrlField>): nat
  {
    if fs == [] then 0 else SumWidths(fs[..|fs| - 1]) + CtrlWidth(fs[|fs| - 1])
  }

  /**
   * The offsets follow LSB-first allocation in declaration order: each field
   * starts where the fields declared before it end, and the widths fill the
   * byte exactly.
   */
  lemma CtrlLayoutLsbFirst()
    ensures |CTRL_FIELDS| == 7
    ensures forall f :: f in CTRL_FIELDS
    ensures forall i :: 0 <= i < 7 ==> CtrlOffset(CTRL_FIELDS[i]) == SumWidths(CTRL_FIELDS[..i])
    ensures SumWidths(CTRL_FIELDS) == 8
  {
    var fs := CTRL_FIELDS;
    assert SumWidths(fs[..0]) == 0 by { assert fs[..0] == []; }
    assert SumWidths(fs[..1]) == 1 by { assert fs[..1][..0] == fs[..0]; }
    assert SumWidths(fs[..2]) == 2 by { assert fs[..2][..1] == fs[..1]; }
    assert SumWidths(fs[..3]) == 3 by { assert fs[..3][..2] == fs[..2]; }
    assert SumWidths(fs[..4]) == 4 by { assert fs[..4][..3] == fs[..3]; }
    assert SumWidths(fs[..5]) == 6 by { assert fs[..5][..4] == fs[..4]; }
    assert SumWidths(fs[..6]) == 7 by { assert fs[..6][..5] == fs[..5]; }
    assert SumWidths(fs) == 8 by { assert fs[..6] == fs[..|fs| - 1]; }
    assert forall f :: f in fs by {
      forall f: CtrlField ensures f in fs {
        match f
        case OneShotBit => assert fs[0] == f;
        case TimeOutDisBit => assert fs[1] == f;
        case FreerunBit => assert fs[2] == f;
        case IfAddIncBit => assert fs[3] == f;
        case AvgBits => assert fs[4] == f;
        case BduBit => assert fs[5] == f;
        case LowOdrStartBit => assert fs[6] == f;
      }
    }
  }

  /** Each mask covers exactly the bits offset .. offset + width - 1. */
  lemma CtrlMaskLayout(f: CtrlField, k: nat)
    requires k < 8
    ensures Bit(CtrlMask(f), k) == (CtrlOffset(f) <= k < CtrlOffset(f) + CtrlWidth(f))
  {
  }

  /** The fields do not overlap and together cover the whole byte. */
  lemma CtrlMasksPartition()
    ensures forall f, g :: f != g ==> CtrlMask(f) & CtrlMask(g) == 0
    ensures CtrlMask(OneShotBit) | CtrlMask(TimeOutDisBit) | CtrlMask(FreerunBit) | CtrlMask(IfAddIncBit)
      | CtrlMask(AvgBits) | CtrlMask(BduBit) | CtrlMask(LowOdrStartBit) == 0xFF
  {
  }

  /** The value of field f of c. */
  function CtrlGet(c: CtrlReg, f: CtrlField): uint8
  {
    match f
    case OneShotBit => c.oneShot
    case TimeOutDisBit => c.timeOutDis
    case FreerunBit => c.freerun
    case IfAddIncBit => c.ifAddInc
    case AvgBits => c.avg
    case BduBit => c.bdu
    case LowOdrStartBit => c.lowOdrStart
  }

  /** c with field f assigned v. */
  function CtrlSet(c: CtrlReg, f: CtrlField, v: uint8): CtrlReg
  {
    match f
    case OneShotBit => c.(oneShot := v)
    case TimeOutDisBit => c.(timeOutDis := v)
    case FreerunBit => c.(freerun := v)
    case IfAddIncBit => c.(ifAddInc := v)
    case AvgBits => c.(avg := v)
    case BduBit => c.(bdu := v)
    case LowOdrStartBit => c.(lowOdrStart := v)
  }

  /** The largest value each field can hold. */
  function CtrlLimit(f: CtrlField): uint8
  {
    if f == AvgBits then 0x03 else 0x01
  }

  function Pow2(n: nat): nat
  {
    if n == 0 then 1 else 2 * Pow2(n - 1)
  }

  /** Each field's limit is the largest value its declared width can hold. */
  lemma CtrlLimitWidth(f: CtrlField)
    ensures CtrlLimit(f) as int == Pow2(CtrlWidth(f)) - 1
  {
    if f == AvgBits {
      assert Pow2(2) == 2 * Pow2(1);
    }
  }

  /** A record is well formed exactly when every field is within its limit. */
  lemma CtrlWellFormedLimits(c: CtrlReg)
    ensures CtrlWellFormed(c) <==> forall f :: CtrlGet(c, f) <= CtrlLimit(f)
  {
    if forall f :: CtrlGet(c, f) <= CtrlLimit(f) {
      assert CtrlGet(c, OneShotBit) <= 1 && CtrlGet(c, TimeOutDisBit) <= 1;
      assert CtrlGet(c, FreerunBit) <= 1 && CtrlGet(c, IfAddIncBit) <= 1;
      assert CtrlGet(c, AvgBits) <= 3 && CtrlGet(c, BduBit) <= 1;
      assert CtrlGet(c, LowOdrStartBit) <= 1;
    }
  }

  /** What C keeps of each value assigned to a field: its low `width` bits. */
  function CtrlTruncate(c: CtrlReg): CtrlReg
  {
    CtrlReg(c.oneShot & 0x01, c.timeOutDis & 0x01, c.freerun & 0x01,
      c.ifAddInc & 0x01, c.avg & 0x03, c.bdu & 0x01, c.lowOdrStart & 0x01)
  }

  /** Assigning one field of a record that is already truncated truncates only the value assigned. */
  lemma CtrlTruncateSet(c: CtrlReg, f: CtrlField, v: uint8)
    requires CtrlTruncate(c) == c
    ensures CtrlTruncate(CtrlSet(c, f, v)) == CtrlSet(c, f, v & CtrlLimit(f))
  {
    match f
    case OneShotBit =>
    case TimeOutDisBit =>
    case FreerunBit =>
    case IfAddIncBit =>
    case AvgBits =>
    case BduBit =>
    case LowOdrStartBit =>
  }

  /** Reading the CTRL byte through the `ctrl` member of the register union. */
  function UnpackCtrl(b: uint8): (c: CtrlReg)
    ensures CtrlWellFormed(c)
    ensures CtrlTruncate(c) == c
  {
    CtrlReg(b & 0x01, (b & 0x02) >> 1, (b & 0x04) >> 2, (b & 0x08) >> 3,
            (b & 0x30) >> 4, (b & 0x40) >> 6, (b & 0x80) >> 7)
  }

  /**
   * The byte the `ctrl` member of the union leaves in `byte`. As in C, a value
   * assigned to a bit-field keeps only its low `width` bits.
   */
  function PackCtrl(c: CtrlReg): (b: uint8)
    ensures UnpackCtrl(b) == CtrlTruncate(c)
  {
    (c.oneShot & 0x01) | ((c.timeOutDis & 0x01) << 1) | ((c.freerun & 0x01) << 2)
    | ((c.ifAddInc & 0x01) << 3) | ((c.avg & 0x03) << 4) | ((c.bdu & 0x01) << 6)
    | ((c.lowOdrStart & 0x01) << 7)
  }

  /** Each field of a packed record occupies its mask, holding the value truncated to its width. */
  lemma PackCtrlLayout(c: CtrlReg, f: CtrlField)
    ensures PackCtrl(c) & CtrlMask(f) == (CtrlGet(c, f) & CtrlLimit(f)) << CtrlOffset(f)
  {
  }

  /** A field of an unpacked byte depends only on the bits under the field's mask. */
  lemma UnpackCtrlLayout(x: uint8, y: uint8, f: CtrlField)
    requires x & CtrlMask(f) == y & CtrlMask(f)
    ensures CtrlGet(UnpackCtrl(x), f) == CtrlGet(UnpackCtrl(y), f)
  {
  }

  /** Unpacking and packing again gives back the byte read. */
  lemma CtrlPackUnpack(b: uint8)
    ensures PackCtrl(UnpackCtrl(b)) == b
  {
  }

  /** A record survives packing and unpacking exactly when its fields fit their widths. */
  lemma CtrlUnpackPack(c: CtrlReg)
    ensures UnpackCtrl(PackCtrl(c)) == c <==> CtrlWellFormed(c)
  {
  }

  /**
   * Read-modify-write of one field of CTRL: unpack the byte, assign field f,
   * pack it again.
   */
  function UpdateCtrl(b: uint8, f: CtrlField, v: uint8): (r: uint8)
    ensures UnpackCtrl(r) == CtrlSet(UnpackCtrl(b), f, v & CtrlLimit(f))
  {
    CtrlTruncateSet(UnpackCtrl(b), f, v);
    PackCtrl(CtrlSet(UnpackCtrl(b), f, v))
  }

  /** Packing two records that differ only in field f gives bytes that differ only under f's mask. */
  lemma PackCtrlSetDiff(c: CtrlReg, f: CtrlField, w: uint8)
    ensures (PackCtrl(CtrlSet(c, f, w)) ^ PackCtrl(c)) & CtrlMask(f) == PackCtrl(CtrlSet(c, f, w)) ^ PackCtrl(c)
  {
    match f
    case OneShotBit =>
    case TimeOutDisBit =>
    case FreerunBit =>
    case IfAddIncBit =>
    case AvgBits =>
    case BduBit =>
    case LowOdrStartBit =>
  }

  /** Every bit in which the byte written differs from the byte read lies inside the field. */
  lemma UpdateCtrlChangesOnlyField(b: uint8, f: CtrlField, v: uint8)
    ensures (UpdateCtrl(b, f, v) ^ b) & CtrlMask(f) == UpdateCtrl(b, f, v) ^ b
  {
    CtrlPackUnpack(b);
    PackCtrlSetDiff(UnpackCtrl(b), f, v);
  }

  /** Read-modify-write leaves every bit outside the field as it was read. */
  lemma UpdateCtrlKeepsOtherBits(b: uint8, f: CtrlField, v: uint8)
    ensures UpdateCtrl(b, f, v) & !CtrlMask(f) == b & !CtrlMask(f)
  {
    UpdateCtrlChangesOnlyField(b, f, v);
    MaskedDifference(UpdateCtrl(b, f, v), b, CtrlMask(f));
  }

  /** Reading a field just assigned gives the value assigned. */
  lemma CtrlGetSet(c: CtrlReg, f: CtrlField, w: uint8)
    ensures CtrlGet(CtrlSet(c, f, w), f) == w
  {
  }

  /** The field written reads back as the value written, truncated to its width. */
  lemma UpdateCtrlReadsBack(b: uint8, f: CtrlField, v: uint8)
    ensures CtrlGet(UnpackCtrl(UpdateCtrl(b, f, v)), f) == v & CtrlLimit(f)
  {
    CtrlGetSet(UnpackCtrl(b), f, v & CtrlLimit(f));
  }

  /** Every other field reads back as it was before the write. */
  lemma UpdateCtrlKeepsOtherFields(b: uint8, f: CtrlField, v: uint8, g: CtrlField)
    requires g != f
    ensures CtrlGet(UnpackCtrl(UpdateCtrl(b, f, v)), g) == CtrlGet(UnpackCtrl(b), g)
  {
    var r := UpdateCtrl(b, f, v);
    UpdateCtrlKeepsOtherBits(b, f, v);
    CtrlMasksPartition();
    DisjointMasks(r, b, CtrlMask(f), CtrlMask(g));
    UnpackCtrlLayout(r, b, g);
  }

  /** The frame property bit by bit: only the field's own bit positions can change. */
  lemma UpdateCtrlFrame(b: uint8, f: CtrlField, v: uint8, k: nat)
    requires k < 8 && !(CtrlOffset(f) <= k < CtrlOffset(f) + CtrlWidth(f))
    ensures Bit(UpdateCtrl(b, f, v), k) == Bit(b, k)
  {
    CtrlMaskLayout(f, k);
    UpdateCtrlKeepsOtherBits(b, f, v);
    BitOutsideMask(UpdateCtrl(b, f, v), b, CtrlMask(f), k);
  }

  // ---------------------------------------------------------------------------
  // STATUS (0x05)

  /** `stts22h_status_t`. */
  datatype StatusReg = StatusReg(
    busy: uint8,       // 1 bit
    overThh: uint8,    // 1 bit
    underThl: uint8,   // 1 bit
    notUsed01: uint8)  // 5 bits

  predicate StatusWellFormed(s: StatusReg)
  {
    s.busy <= 1 && s.overThh <= 1 && s.underThl <= 1 && s.notUsed01 <= 0x1F
  }

  function UnpackStatus(b: uint8): (s: StatusReg)
    ensures StatusWellFormed(s)
    ensures (s.busy == 1) == Bit(b, 0)
    ensures (s.overThh == 1) == Bit(b, 1)
    ensures (s.underThl == 1) == Bit(b, 2)
  {
    StatusReg(b & 0x01, (b >> 1) & 0x01, (b >> 2) & 0x01, (b >> 3) & 0x1F)
  }

  function PackStatus(s: StatusReg): (b: uint8)
    ensures UnpackStatus(b) == StatusReg(s.busy & 0x01, s.overThh & 0x01, s.underThl & 0x01, s.notUsed01 & 0x1F)
  {
    (s.busy & 0x01) | ((s.overThh & 0x01) << 1) | ((s.underThl & 0x01) << 2) | ((s.notUsed01 & 0x1F) << 3)
  }

  lemma StatusRoundTrip(b: uint8, s: StatusReg)
    ensures PackStatus(UnpackStatus(b)) == b
    ensures UnpackStatus(PackStatus(s)) == s <==> StatusWellFormed(s)
  {
  }

  /** The three flags depend on bits 0-2 only: bits 3-7 of the byte are ignored. */
  lemma StatusFlagsIgnoreUnusedBits(b1: uint8, b2: uint8)
    requires b1 & 0x07 == b2 & 0x07
    ensures UnpackStatus(b1).busy == UnpackStatus(b2).busy
    ensures UnpackStatus(b1).overThh == UnpackStatus(b2).overThh
    ensures UnpackStatus(b1).underThl == UnpackStatus(b2).underThl
  {
  }

  // ---------------------------------------------------------------------------
  // SOFTWARE_RESET (0x0C)

  /** `stts22h_software_reset_t`. */
  datatype SoftwareResetReg = SoftwareResetReg(
    notUsed01: uint8,     // 1 bit
    swReset: uint8,       // 1 bit
    notUsed02: uint8,     // 4 bits
    lowOdrEnable: uint8,  // 1 bit
    notUsed03: uint8)     // 1 bit

  predicate SoftwareResetWellFormed(s: SoftwareResetReg)
  {
    s.notUsed01 <= 1 && s.swReset <= 1 && s.notUsed02 <= 0x0F && s.lowOdrEnable <= 1 && s.notUsed03 <= 1
  }

  function UnpackSoftwareReset(b: uint8): (s: SoftwareResetReg)
    ensures SoftwareResetWellFormed(s)
    ensures (s.swReset == 1) == Bit(b, 1)
    ensures (s.lowOdrEnable == 1) == Bit(b, 6)
    ensures (s.notUsed01 == 1) == Bit(b, 0) && (s.notUsed03 == 1) == Bit(b, 7)
    ensures s.notUsed02 == (b & 0x3C) >> 2
  {
    SoftwareResetReg(b & 0x01, (b >> 1) & 0x01, (b >> 2) & 0x0F, (b >> 6) & 0x01, (b >> 7) & 0x01)
  }

  function PackSoftwareReset(s: SoftwareResetReg): (b: uint8)
    ensures UnpackSoftwareReset(b)
      == SoftwareResetReg(s.notUsed01 & 0x01, s.swReset & 0x01, s.notUsed02 & 0x0F, s.lowOdrEnable & 0x01, s.notUsed03 & 0x01)
  {
    (s.notUsed01 & 0x01) | ((s.swReset & 0x01) << 1) | ((s.notUsed02 & 0x0F) << 2)
    | ((s.lowOdrEnable & 0x01) << 6) | ((s.notUsed03 & 0x01) << 7)
  }

  lemma SoftwareResetRoundTrip(b: uint8, s: SoftwareResetReg)
    ensures PackSoftwareReset(UnpackSoftwareReset(b)) == b
    ensures UnpackSoftwareReset(PackSoftwareReset(s)) == s <==> SoftwareResetWellFormed(s)
  {
  }

  /** The two bits of SOFTWARE_RESET a driver writes. */
  datatype SoftwareResetField = SwResetBit | LowOdrEnableBit

  /** The bit of the byte a writable SOFTWARE_RESET field occupies. */
  function SoftwareResetMask(f: SoftwareResetField): uint8
  {
    match f
    case SwResetBit => 0x02
    case LowOdrEnableBit => 0x40
  }

  function SoftwareResetGet(s: SoftwareResetReg, f: SoftwareResetField): uint8
  {
    match f
    case SwResetBit => s.swReset
    case LowOdrEnableBit => s.lowOdrEnable
  }

  /**
   * Read-modify-write of one writable field of SOFTWARE_RESET: unpack the
   * byte, assign field f, pack it again.
   */
  function UpdateSoftwareReset(b: uint8, f: SoftwareResetField, v: uint8): (r: uint8)
    ensures SoftwareResetGet(UnpackSoftwareReset(r), f) == v & 0x01
  {
    var s := UnpackSoftwareReset(b);
    match f
    case SwResetBit => PackSoftwareReset(s.(swReset := v))
    case LowOdrEnableBit => PackSoftwareReset(s.(lowOdrEnable := v))
  }

  /** Read-modify-write of SOFTWARE_RESET leaves every bit outside the field as it was read. */
  lemma UpdateSoftwareResetKeepsOtherBits(b: uint8, f: SoftwareResetField, v: uint8)
    ensures UpdateSoftwareReset(b, f, v) & !SoftwareResetMask(f) == b & !SoftwareResetMask(f)
  {
    var s := UnpackSoftwareReset(b);
    SoftwareResetRoundTrip(b, s);
    match f
    case SwResetBit =>
      assert PackSoftwareReset(s.(swReset := v)) & 0xFD == PackSoftwareReset(s) & 0xFD;
    case LowOdrEnableBit =>
      assert PackSoftwareReset(s.(lowOdrEnable := v)) & 0xBF == PackSoftwareReset(s) & 0xBF;
  }

  /** Writing one of the two fields leaves the other one, and the unused bits, as they were read. */
  lemma UpdateSoftwareResetKeepsOtherFields(b: uint8, f: SoftwareResetField, v: uint8)
    ensures var s := UnpackSoftwareReset(b);
      var t := UnpackSoftwareReset(UpdateSoftwareReset(b, f, v));
      t.notUsed01 == s.notUsed01 && t.notUsed02 == s.notUsed02 && t.notUsed03 == s.notUsed03
      && (f == SwResetBit ==> t.lowOdrEnable == s.lowOdrEnable)
      && (f == LowOdrEnableBit ==> t.swReset == s.swReset)
  {
    match f
    case SwResetBit =>
    case LowOdrEnableBit =>
  }

  // ---------------------------------------------------------------------------
  // Output data rate

  /** `stts22h_odr_temp_t`. */
  datatype Odr = PowerDown | OneShot | Odr1Hz | Odr25Hz | Odr50Hz | Odr100Hz | Odr200Hz

  /**
   * The code of each rate. Bits 6, 7 and 3 are never used, at most one of
   * bits 0-2 is set, and only codes with bit 1 set carry a value in bits 4-5.
   */
  function OdrCode(m: Odr): (c: uint8)
    ensures c & 0xC8 == 0
    ensures c & 0x07 == 0x00 || c & 0x07 == 0x01 || c & 0x07 == 0x02 || c & 0x07 == 0x04
    ensures c & 0x30 != 0 ==> c & 0x07 == 0x02
  {
    match m
    case PowerDown => 0x00
    case OneShot => 0x01
    case Odr1Hz => 0x04
    case Odr25Hz => 0x02
    case Odr50Hz => 0x12
    case Odr100Hz => 0x22
    case Odr200Hz => 0x32
  }

  /** The mode whose code is b; None for every byte that is no mode's code. */
  function OdrOfCode(b: uint8): (r: Option<Odr>)
    ensures r.Some? ==> OdrCode(r.value) == b
    ensures r.None? ==> forall m :: OdrCode(m) != b
  {
    if b == 0x00 then Some(PowerDown)
    else if b == 0x01 then Some(OneShot)
    else if b == 0x04 then Some(Odr1Hz)
    else if b == 0x02 then Some(Odr25Hz)
    else if b == 0x12 then Some(Odr50Hz)
    else if b == 0x22 then Some(Odr100Hz)
    else if b == 0x32 then Some(Odr200Hz)
    else None
  }

  /** The codes are pairwise distinct, so decoding a mode's code gives the mode back. */
  lemma OdrRoundTrip(m: Odr)
    ensures OdrOfCode(OdrCode(m)) == Some(m)
    ensures forall other :: other != m ==> OdrCode(other) != OdrCode(m)
  {
  }

  // ---------------------------------------------------------------------------
  // SMBus mode

  /** `stts22h_smbus_md_t`. */
  datatype SmbusMode = TimeoutEnable | TimeoutDisable

  /** The code of each mode fits the one-bit `time_out_dis` field and is 1 exactly for "disable". */
  function SmbusCode(m: SmbusMode): (c: uint8)
    ensures c <= CtrlLimit(TimeOutDisBit)
    ensures c == 1 <==> m == TimeoutDisable
  {
    match m
    case TimeoutEnable => 0
    case TimeoutDisable => 1
  }

  /** The mode the `time_out_dis` bit of CTRL encodes. */
  function SmbusModeOfCtrl(c: CtrlReg): (m: SmbusMode)
    requires CtrlWellFormed(c)
    ensures SmbusCode(m) == c.timeOutDis
  {
    if c.timeOutDis == 1 then TimeoutDisable else TimeoutEnable
  }

  /** The two modes and the two values of `time_out_dis` correspond one to one. */
  lemma SmbusModeOneToOne(c: CtrlReg, m: SmbusMode)
    requires CtrlWellFormed(c)
    ensures SmbusModeOfCtrl(c.(timeOutDis := SmbusCode(m))) == m
    ensures SmbusModeOfCtrl(UnpackCtrl(UpdateCtrl(PackCtrl(c), TimeOutDisBit, SmbusCode(m)))) == m
  {
  }
}
