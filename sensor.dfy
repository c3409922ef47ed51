/** The ICM-20948 driver: each operation is a short script of register
    accesses through the accessor, against a sensor whose registers are
    grouped in four banks selected through register 0x7F.

    As in the accessor, every operation is given as a function from the
    transport state to an `Answer` (the new state and the value returned),
    with lemmas stating its effect on the sensor's registers, and as a method
    of the class `ICM20948` proved to have exactly that answer. */
module Sensor {
  import opened Bits
  import opened Registers
  import opened Transport
  import opened I2C
  import opened Scales

  /** A driver call as the caller sees it: the new transport state and the value returned. */
  datatype Answer<T> = Answer(wire: Wire, value: T)

  /** What the data getters return: nothing (the early all-zero return
      taken for a negative scale) or the raw samples with the resolution
      they are to be divided by. */
  datatype Reading = NoReading | Reading(raw: Axes, sens: int)

  /** The device with bank `n` selected and every register as before. */
  function InBank(d: Device, n: nat): (d': Device)
    requires n < 4
    ensures d.Valid() ==> d'.Valid()
  {
    d.(bank := n)
  }

  /** The transaction that selects a bank: the code written to 0x7F. */
  function BankSelectTx(l: Link, code: Byte): seq<Word> {
    WriteSeq(l.wr, REG_BANK_SEL, [code])
  }

  /** The transaction that reads `n` bytes from `reg`. */
  function ReadTx(l: Link, reg: Byte, n: nat): seq<Word> {
    ReadSeq(l.wr, l.rd, reg, n)
  }

  /** A one-byte write to `reg`, whatever the byte. */
  predicate IsWriteTx(s: seq<Word>, l: Link, reg: Byte) {
    |s| == 3 && s[0] == l.wr as Word && s[1] == reg as Word && s[2] < 256
  }

  /** `selectBankReg(code)`: a write of the code to the bank-select register,
      its status dropped; on a bus that cannot be opened nothing happens. */
  function SelectBankOp(w: Wire, l: Link, code: Byte): (w': Wire)
    requires w.dev.Valid()
    ensures w'.dev.Valid() && w'.id == w.id
    ensures l.busNum == w.id ==> w'.log == w.log + [BankSelectTx(l, code)]
    ensures l.busNum != w.id ==> w' == w
  {
    WriteOp(w, l, REG_BANK_SEL, code).wire
  }

  /** `i2c.read(reg)`: the state afterwards and the byte returned. */
  function ReadByte(w: Wire, l: Link, reg: Byte): (a: Answer<Byte>)
    requires w.dev.Valid()
    ensures a.wire.dev.Valid() && a.wire.id == w.id
    ensures l.busNum == w.id ==> a.wire.log == w.log + [ReadTx(l, reg, 1)]
    ensures l.busNum != w.id ==> a == Answer(w, 0)
  {
    var o := ReadNOp(w, l, reg, 1);
    Answer(o.wire, o.data[0])
  }

  /** Selecting a bank on the attached sensor changes the current bank to the
      one the code names and nothing else. */
  lemma SelectBankEffect(w: Wire, l: Link, code: Byte)
    requires Attached(w, l)
    ensures SelectBankOp(w, l, code).dev == InBank(w.dev, BankOf(code))
    ensures Attached(SelectBankOp(w, l, code), l)
    ensures SelectBankOp(w, l, code).log == w.log + [[l.wr as Word, REG_BANK_SEL as Word, code as Word]]
  {
    WriteEffect(w, l, REG_BANK_SEL, code);
  }

  /** Reading one register of the attached sensor returns what the register
      reads as and changes nothing on the sensor. */
  lemma ReadByteEffect(w: Wire, l: Link, reg: Byte)
    requires Attached(w, l)
    ensures ReadByte(w, l, reg).wire.dev == w.dev
    ensures ReadByte(w, l, reg).value == GetReg(w.dev, reg)
    ensures Attached(ReadByte(w, l, reg).wire, l)
  {
    ReadEffect(w, l, reg, 1);
    ReadRegsOne(w.dev, reg);
  }

  /** `whoAmI`: select bank 0, read WHO_AM_I, compare with 0xEA; on a bus
      that cannot be opened it is false and nothing is sent. */
  function WhoAmIScript(w: Wire, l: Link): (a: Answer<bool>)
    requires w.dev.Valid()
    ensures a.wire.dev.Valid() && a.wire.id == w.id
    ensures l.busNum == w.id ==>
            a.wire.log == w.log + [BankSelectTx(l, REG_BANK_0), ReadTx(l, WHO_AM_I, 1)]
    ensures l.busNum != w.id ==> a == Answer(w, false)
  {
    var w1 := SelectBankOp(w, l, REG_BANK_0);
    var id := ReadByte(w1, l, WHO_AM_I);
    Answer(id.wire, id.value == WHO_AM_I_VALUE)
  }

  /** On the attached sensor `whoAmI` is true exactly when WHO_AM_I of bank 0
      holds 0xEA, and it leaves bank 0 selected. */
  lemma WhoAmIEffect(w: Wire, l: Link)
    requires Attached(w, l)
    ensures WhoAmIScript(w, l).value <==> w.dev.regs(0, WHO_AM_I) == 0xEA
    ensures WhoAmIScript(w, l).wire.dev == InBank(w.dev, 0)
  {
    var w1 := SelectBankOp(w, l, REG_BANK_0);
    SelectBankEffect(w, l, REG_BANK_0);
    ReadByteEffect(w1, l, WHO_AM_I);
    BankCodes(0, REG_BANK_0);
  }

  /** Three transactions appended one by one: the first two form a prefix and the third ends the log. */
  lemma LogSteps(log: seq<seq<Word>>, x: seq<Word>, y: seq<Word>, z: seq<Word>)
    ensures |log + [x] + [y] + [z]| == |log| + 3
    ensures (log + [x] + [y] + [z])[..|log| + 2] == log + [x, y]
    ensures (log + [x] + [y] + [z])[|log| + 2] == z
    ensures log + [x] + [y] + [z] == log + [x, y, z]
  {
  }

  /** `disableSleep`: in bank 0, clear the sleep bit and the clock-select bits
      of PWR_MGMT_1 and write it back; the write's status is returned. The
      bus sees the bank selection, the read and the write, in that order. */
  function DisableSleepScript(w: Wire, l: Link): (a: Answer<int>)
    requires w.dev.Valid()
    ensures a.wire.dev.Valid() && a.wire.id == w.id
    ensures a.value == 0 || a.value == -1
    ensures l.busNum == w.id ==>
            && |a.wire.log| == |w.log| + 3
            && a.wire.log[..|w.log| + 2] == w.log + [BankSelectTx(l, REG_BANK_0), ReadTx(l, PWR_MGMT_1, 1)]
            && IsWriteTx(a.wire.log[|w.log| + 2], l, PWR_MGMT_1)
    ensures l.busNum != w.id ==> a == Answer(w, -1)
  {
    var w1 := SelectBankOp(w, l, REG_BANK_0);
    var r := ReadByte(w1, l, PWR_MGMT_1);
    var status := BitClear(r.value, SLEEP_BIT) & !INT_OSC_BM;
    LogSteps(w.log, BankSelectTx(l, REG_BANK_0), ReadTx(l, PWR_MGMT_1, 1), WriteSeq(l.wr, PWR_MGMT_1, [status]));
    var o := WriteOp(r.wire, l, PWR_MGMT_1, status);
    Answer(o.wire, o.status)
  }

  /** `enableSleep`: in bank 0, set the sleep bit of PWR_MGMT_1 and write it
      back, with the same bus traffic as `disableSleep`. */
  function EnableSleepScript(w: Wire, l: Link): (a: Answer<int>)
    requires w.dev.Valid()
    ensures a.wire.dev.Valid() && a.wire.id == w.id
    ensures a.value == 0 || a.value == -1
    ensures l.busNum == w.id ==>
            && |a.wire.log| == |w.log| + 3
            && a.wire.log[..|w.log| + 2] == w.log + [BankSelectTx(l, REG_BANK_0), ReadTx(l, PWR_MGMT_1, 1)]
            && IsWriteTx(a.wire.log[|w.log| + 2], l, PWR_MGMT_1)
    ensures l.busNum != w.id ==> a == Answer(w, -1)
  {
    var w1 := SelectBankOp(w, l, REG_BANK_0);
    var r := ReadByte(w1, l, PWR_MGMT_1);
    var status := BitSet(r.value, SLEEP_BIT);
    LogSteps(w.log, BankSelectTx(l, REG_BANK_0), ReadTx(l, PWR_MGMT_1, 1), WriteSeq(l.wr, PWR_MGMT_1, [status]));
    var o := WriteOp(r.wire, l, PWR_MGMT_1, status);
    Answer(o.wire, o.status)
  }

  /** The register file after `v` is stored in register `reg` of bank `b`, every other register kept. */
  ghost predicate StoredOnly(before: Device, after: Device, b: nat, reg: Byte, v: Byte) {
    after.regs(b, reg) == v
    && forall c: nat, k: Byte | c != b || k != reg :: after.regs(c, k) == before.regs(c, k)
  }

  /** A read-modify-write of one register of bank `n` through the attached
      sensor: bank `n` ends selected and only that register changes. */
  lemma ReadModifyWriteIn(w: Wire, l: Link, n: nat, reg: Byte, v: Byte)
    requires Attached(w, l) && n < 4 && reg != REG_BANK_SEL
    ensures var w1 := SelectBankOp(w, l, BankCode(n));
            var r := ReadByte(w1, l, reg);
            var o := WriteOp(r.wire, l, reg, v);
            && r.value == w.dev.regs(n, reg)
            && o.status == 0 && o.wire.dev.bank == n && Attached(o.wire, l)
            && StoredOnly(w.dev, o.wire.dev, n, reg, v)
  {
    var w1 := SelectBankOp(w, l, BankCode(n));
    SelectBankEffect(w, l, BankCode(n));
    BankCodes(n, BankCode(n));
    var r := ReadByte(w1, l, reg);
    ReadByteEffect(w1, l, reg);
    WriteEffect(r.wire, l, reg, v);
  }

  /** On the attached sensor `disableSleep` reports 0, leaves bank 0 selected,
      clears bits 6 and 0..2 of PWR_MGMT_1, keeps bits 3, 4, 5 and 7, and
      changes no other register. */
  lemma DisableSleepEffect(w: Wire, l: Link)
    requires Attached(w, l)
    ensures var a := DisableSleepScript(w, l);
            var old1 := w.dev.regs(0, PWR_MGMT_1);
            && a.value == 0 && a.wire.dev.bank == 0
            && StoredOnly(w.dev, a.wire.dev, 0, PWR_MGMT_1, old1 & !0x40 & !0x07)
            && a.wire.dev.regs(0, PWR_MGMT_1) & 0xB8 == old1 & 0xB8
            && a.wire.dev.regs(0, PWR_MGMT_1) & 0x47 == 0
  {
    var old1 := w.dev.regs(0, PWR_MGMT_1);
    assert BitClear(old1, SLEEP_BIT) & !INT_OSC_BM == old1 & !0x40 & !0x07;
    ReadModifyWriteIn(w, l, 0, PWR_MGMT_1, old1 & !0x40 & !0x07);
  }

  /** On the attached sensor `enableSleep` reports 0, leaves bank 0 selected,
      sets the sleep bit of PWR_MGMT_1, keeps its other bits and changes no
      other register. */
  lemma EnableSleepEffect(w: Wire, l: Link)
    requires Attached(w, l)
    ensures var a := EnableSleepScript(w, l);
            var old1 := w.dev.regs(0, PWR_MGMT_1);
            && a.value == 0 && a.wire.dev.bank == 0
            && StoredOnly(w.dev, a.wire.dev, 0, PWR_MGMT_1, old1 | 0x40)
            && BitVal(a.wire.dev.regs(0, PWR_MGMT_1), SLEEP_BIT) == 1
            && a.wire.dev.regs(0, PWR_MGMT_1) & !0x40 == old1 & !0x40
  {
    var old1 := w.dev.regs(0, PWR_MGMT_1);
    assert BitSet(old1, SLEEP_BIT) == old1 | 0x40;
    ReadModifyWriteIn(w, l, 0, PWR_MGMT_1, old1 | 0x40);
  }

  /** Sleeping and waking again restores PWR_MGMT_1 when the clock-select
      bits were already clear and the part was awake. */
  lemma SleepWakeRestores(w: Wire, l: Link)
    requires Attached(w, l)
    requires w.dev.regs(0, PWR_MGMT_1) & 0x47 == 0
    ensures DisableSleepScript(EnableSleepScript(w, l).wire, l).wire.dev.regs(0, PWR_MGMT_1)
         == w.dev.regs(0, PWR_MGMT_1)
  {
    var a := EnableSleepScript(w, l);
    EnableSleepEffect(w, l);
    assert Attached(a.wire, l);
    DisableSleepEffect(a.wire, l);
  }

  /** `getStatus` as written: PWR_MGMT_1 and PWR_MGMT_2 are read in whatever
      bank is current (no bank is selected), and the result repeats
      PWR_MGMT_1 in both bytes. */
  function GetStatusScript(w: Wire, l: Link): (a: Answer<Word>)
    requires w.dev.Valid()
    ensures a.wire.dev.Valid() && a.wire.id == w.id
    ensures a.value >> 8 == a.value & 0xFF
    ensures l.busNum == w.id ==>
            a.wire.log == w.log + [ReadTx(l, PWR_MGMT_1, 1), ReadTx(l, PWR_MGMT_2, 1)]
    ensures l.busNum != w.id ==> a == Answer(w, 0)
  {
    var p1 := ReadByte(w, l, PWR_MGMT_1);
    var p2 := ReadByte(p1.wire, l, PWR_MGMT_2);
    Answer(p2.wire, ((p1.value as Word) << 8) | ((p1.value as Word) & 0xFF))
  }

  /** On the attached sensor `getStatus` changes nothing on the sensor and
      returns register 0x06 of the current bank in both bytes: PWR_MGMT_2
      never reaches the result, and outside bank 0 neither byte is a power
      register. */
  lemma GetStatusEffect(w: Wire, l: Link)
    requires Attached(w, l)
    ensures var a := GetStatusScript(w, l);
            && a.wire.dev == w.dev
            && a.value >> 8 == w.dev.regs(w.dev.bank, PWR_MGMT_1) as Word
            && a.value & 0xFF == w.dev.regs(w.dev.bank, PWR_MGMT_1) as Word
  {
    var p1 := ReadByte(w, l, PWR_MGMT_1);
    ReadByteEffect(w, l, PWR_MGMT_1);
    ReadByteEffect(p1.wire, l, PWR_MGMT_2);
    StatusHalves(p1.value);
  }

  lemma StatusHalves(b: Byte)
    ensures (((b as Word) << 8) | ((b as Word) & 0xFF)) >> 8 == b as Word
    ensures (((b as Word) << 8) | ((b as Word) & 0xFF)) & 0xFF == b as Word
  {
  }

  /** Two sensors that differ only in PWR_MGMT_2 give the same status. */
  lemma GetStatusIgnoresPwrMgmt2(w: Wire, l: Link, v: Byte)
    requires Attached(w, l) && w.dev.bank == 0
    ensures var w' := w.(dev := w.dev.(regs := (b: nat, k: Byte) => if b == 0 && k == PWR_MGMT_2 then v else w.dev.regs(b, k)));
            GetStatusScript(w', l).value == GetStatusScript(w, l).value
  {
    var w' := w.(dev := w.dev.(regs := (b: nat, k: Byte) => if b == 0 && k == PWR_MGMT_2 then v else w.dev.regs(b, k)));
    GetStatusEffect(w, l);
    GetStatusEffect(w', l);
    StatusWord(GetStatusScript(w, l).value, GetStatusScript(w', l).value);
  }

  /** A 16-bit word is fixed by its two bytes. */
  lemma StatusWord(a: Word, b: Word)
    requires a >> 8 == b >> 8 && a & 0xFF == b & 0xFF
    ensures a == b
  {
  }

  /** `getStatus` as its result's name says: bank 0 selected first, then
      PWR_MGMT_1 in the high byte and PWR_MGMT_2 in the low byte. */
  function GetStatusCorrected(w: Wire, l: Link): (a: Answer<Word>)
    requires w.dev.Valid()
    ensures a.wire.dev.Valid() && a.wire.id == w.id
    ensures l.busNum == w.id ==>
            a.wire.log == w.log + [BankSelectTx(l, REG_BANK_0), ReadTx(l, PWR_MGMT_1, 1), ReadTx(l, PWR_MGMT_2, 1)]
    ensures l.busNum != w.id ==> a == Answer(w, 0)
  {
    LogSteps(w.log, BankSelectTx(l, REG_BANK_0), ReadTx(l, PWR_MGMT_1, 1), ReadTx(l, PWR_MGMT_2, 1));
    var w1 := SelectBankOp(w, l, REG_BANK_0);
    var p1 := ReadByte(w1, l, PWR_MGMT_1);
    var p2 := ReadByte(p1.wire, l, PWR_MGMT_2);
    Answer(p2.wire, ((p1.value as Word) << 8) | (p2.value as Word))
  }

  /** The corrected status holds both power registers of bank 0, whatever
      bank was current. */
  lemma GetStatusCorrectedEffect(w: Wire, l: Link)
    requires Attached(w, l)
    ensures var a := GetStatusCorrected(w, l);
            && a.wire.dev == InBank(w.dev, 0)
            && a.value >> 8 == w.dev.regs(0, PWR_MGMT_1) as Word
            && a.value & 0xFF == w.dev.regs(0, PWR_MGMT_2) as Word
  {
    var w1 := SelectBankOp(w, l, REG_BANK_0);
    SelectBankEffect(w, l, REG_BANK_0);
    BankCodes(0, REG_BANK_0);
    var p1 := ReadByte(w1, l, PWR_MGMT_1);
    ReadByteEffect(w1, l, PWR_MGMT_1);
    ReadByteEffect(p1.wire, l, PWR_MGMT_2);
    WordHalves(p1.value, ReadByte(p1.wire, l, PWR_MGMT_2).value);
  }

  lemma WordHalves(hi: Byte, lo: Byte)
    ensures (((hi as Word) << 8) | (lo as Word)) >> 8 == hi as Word
    ensures (((hi as Word) << 8) | (lo as Word)) & 0xFF == lo as Word
  {
  }

  /** `setAccSens(scale)` as written: an invalid code is refused with -1
      before any bus access; otherwise ACCEL_CONFIG_1 is read and written
      back in whatever bank is current, and 0 is returned, even when the bus
      cannot be opened. */
  function SetAccSensScript(w: Wire, l: Link, scale: Byte): (a: Answer<int>)
    requires w.dev.Valid()
    ensures a.wire.dev.Valid() && a.wire.id == w.id
    ensures !IsAccelCode(scale) ==> a == Answer(w, -1)
    ensures IsAccelCode(scale) ==> a.value == 0
    ensures IsAccelCode(scale) && l.busNum == w.id ==>
            && |a.wire.log| == |w.log| + 2
            && a.wire.log[..|w.log| + 1] == w.log + [ReadTx(l, ACCEL_CONFIG_1, 1)]
            && IsWriteTx(a.wire.log[|w.log| + 1], l, ACCEL_CONFIG_1)
    ensures l.busNum != w.id ==> a.wire == w
  {
    if !IsAccelCode(scale) then Answer(w, -1)
    else
      var c := ReadByte(w, l, ACCEL_CONFIG_1);
      var o := WriteOp(c.wire, l, ACCEL_CONFIG_1, SensWriteBack(c.value, scale));
      Answer(o.wire, 0)
  }

  /** `setGyroSens(scale)` as written, the same script on GYRO_CONFIG_1. */
  function SetGyroSensScript(w: Wire, l: Link, scale: Byte): (a: Answer<int>)
    requires w.dev.Valid()
    ensures a.wire.dev.Valid() && a.wire.id == w.id
    ensures !IsGyroCode(scale) ==> a == Answer(w, -1)
    ensures IsGyroCode(scale) ==> a.value == 0
    ensures IsGyroCode(scale) && l.busNum == w.id ==>
            && |a.wire.log| == |w.log| + 2
            && a.wire.log[..|w.log| + 1] == w.log + [ReadTx(l, GYRO_CONFIG_1, 1)]
            && IsWriteTx(a.wire.log[|w.log| + 1], l, GYRO_CONFIG_1)
    ensures l.busNum != w.id ==> a.wire == w
  {
    if !IsGyroCode(scale) then Answer(w, -1)
    else
      var c := ReadByte(w, l, GYRO_CONFIG_1);
      var o := WriteOp(c.wire, l, GYRO_CONFIG_1, SensWriteBack(c.value, scale));
      Answer(o.wire, 0)
  }

  /** A read-modify-write of one register in the current bank of the
      attached sensor: the bank stays and only that register changes. */
  lemma ReadModifyWriteHere(w: Wire, l: Link, reg: Byte, v: Byte)
    requires Attached(w, l) && reg != REG_BANK_SEL
    ensures var r := ReadByte(w, l, reg);
            var o := WriteOp(r.wire, l, reg, v);
            && r.value == w.dev.regs(w.dev.bank, reg)
            && o.wire.dev.bank == w.dev.bank && Attached(o.wire, l)
            && StoredOnly(w.dev, o.wire.dev, w.dev.bank, reg, v)
  {
    var r := ReadByte(w, l, reg);
    ReadByteEffect(w, l, reg);
    WriteEffect(r.wire, l, reg, v);
  }

  /** An invalid accelerometer code is refused with -1 and no bus access; a
      valid one is written back into ACCEL_CONFIG_1 of the current bank by
      the AND of the old field and the code, every other bit and register
      kept, and 0 is returned. */
  lemma SetAccSensEffect(w: Wire, l: Link, scale: Byte)
    requires w.dev.Valid()
    ensures !IsAccelCode(scale) ==> SetAccSensScript(w, l, scale) == Answer(w, -1)
    ensures IsAccelCode(scale) ==> SetAccSensScript(w, l, scale).value == 0
    ensures IsAccelCode(scale) && Attached(w, l) ==>
            var a := SetAccSensScript(w, l, scale);
            var c := w.dev.regs(w.dev.bank, ACCEL_CONFIG_1);
            && a.wire.dev.bank == w.dev.bank && Attached(a.wire, l)
            && StoredOnly(w.dev, a.wire.dev, w.dev.bank, ACCEL_CONFIG_1, SensWriteBack(c, scale))
            && SensWriteBack(c, scale) & !SENSITIVITY_BM == c & !SENSITIVITY_BM
            && SensWriteBack(c, scale) & SENSITIVITY_BM == c & scale
  {
    if IsAccelCode(scale) && Attached(w, l) {
      ReadModifyWriteHere(w, l, ACCEL_CONFIG_1, SensWriteBack(w.dev.regs(w.dev.bank, ACCEL_CONFIG_1), scale));
      SensitivityCodesExhaustField(scale);
      SensWriteBackEffect(w.dev.regs(w.dev.bank, ACCEL_CONFIG_1), scale);
    }
  }

  /** The same for `setGyroSens` and GYRO_CONFIG_1. */
  lemma SetGyroSensEffect(w: Wire, l: Link, scale: Byte)
    requires w.dev.Valid()
    ensures !IsGyroCode(scale) ==> SetGyroSensScript(w, l, scale) == Answer(w, -1)
    ensures IsGyroCode(scale) ==> SetGyroSensScript(w, l, scale).value == 0
    ensures IsGyroCode(scale) && Attached(w, l) ==>
            var a := SetGyroSensScript(w, l, scale);
            var c := w.dev.regs(w.dev.bank, GYRO_CONFIG_1);
            && a.wire.dev.bank == w.dev.bank && Attached(a.wire, l)
            && StoredOnly(w.dev, a.wire.dev, w.dev.bank, GYRO_CONFIG_1, SensWriteBack(c, scale))
            && SensWriteBack(c, scale) & !SENSITIVITY_BM == c & !SENSITIVITY_BM
            && SensWriteBack(c, scale) & SENSITIVITY_BM == c & scale
  {
    if IsGyroCode(scale) && Attached(w, l) {
      ReadModifyWriteHere(w, l, GYRO_CONFIG_1, SensWriteBack(w.dev.regs(w.dev.bank, GYRO_CONFIG_1), scale));
      SensitivityCodesExhaustField(scale);
      SensWriteBackEffect(w.dev.regs(w.dev.bank, GYRO_CONFIG_1), scale);
    }
  }

  /** `getAccSens`: select bank 2, read ACCEL_CONFIG_1, map its sensitivity
      field. The result is always a resolution; on a bus that cannot be
      opened it is that of 2 g, read from nothing. */
  function GetAccSensScript(w: Wire, l: Link): (a: Answer<int>)
    requires w.dev.Valid()
    ensures a.wire.dev.Valid() && a.wire.id == w.id
    ensures a.value > 0
    ensures l.busNum == w.id ==>
            a.wire.log == w.log + [BankSelectTx(l, REG_BANK_2), ReadTx(l, ACCEL_CONFIG_1, 1)]
    ensures l.busNum != w.id ==> a == Answer(w, 16384)
  {
    var w1 := SelectBankOp(w, l, REG_BANK_2);
    var r := ReadByte(w1, l, ACCEL_CONFIG_1);
    Answer(r.wire, AccelScale(r.value & SENSITIVITY_BM))
  }

  /** `getGyroSens`: select bank 2, read GYRO_CONFIG_1, map its sensitivity
      field; on a bus that cannot be opened the result is that of 250 dps. */
  function GetGyroSensScript(w: Wire, l: Link): (a: Answer<int>)
    requires w.dev.Valid()
    ensures a.wire.dev.Valid() && a.wire.id == w.id
    ensures a.value > 0
    ensures l.busNum == w.id ==>
            a.wire.log == w.log + [BankSelectTx(l, REG_BANK_2), ReadTx(l, GYRO_CONFIG_1, 1)]
    ensures l.busNum != w.id ==> a == Answer(w, 1310)
  {
    var w1 := SelectBankOp(w, l, REG_BANK_2);
    var r := ReadByte(w1, l, GYRO_CONFIG_1);
    Answer(r.wire, GyroScaleTenths(r.value & SENSITIVITY_BM))
  }

  /** On the attached sensor `getAccSens` leaves bank 2 selected, changes no
      register and returns the resolution of the code in ACCEL_CONFIG_1 of
      bank 2, which is always positive. */
  lemma GetAccSensEffect(w: Wire, l: Link)
    requires Attached(w, l)
    ensures var a := GetAccSensScript(w, l);
            && a.wire.dev == InBank(w.dev, 2) && Attached(a.wire, l)
            && a.value == AccelScale(w.dev.regs(2, ACCEL_CONFIG_1) & SENSITIVITY_BM)
            && a.value > 0
  {
    var w1 := SelectBankOp(w, l, REG_BANK_2);
    SelectBankEffect(w, l, REG_BANK_2);
    BankCodes(2, REG_BANK_2);
    ReadByteEffect(w1, l, ACCEL_CONFIG_1);
    DefaultScalesUnreachable(w.dev.regs(2, ACCEL_CONFIG_1));
  }

  /** The same for `getGyroSens` and GYRO_CONFIG_1. */
  lemma GetGyroSensEffect(w: Wire, l: Link)
    requires Attached(w, l)
    ensures var a := GetGyroSensScript(w, l);
            && a.wire.dev == InBank(w.dev, 2) && Attached(a.wire, l)
            && a.value == GyroScaleTenths(w.dev.regs(2, GYRO_CONFIG_1) & SENSITIVITY_BM)
            && a.value > 0
  {
    var w1 := SelectBankOp(w, l, REG_BANK_2);
    SelectBankEffect(w, l, REG_BANK_2);
    BankCodes(2, REG_BANK_2);
    ReadByteEffect(w1, l, GYRO_CONFIG_1);
    DefaultScalesUnreachable(w.dev.regs(2, GYRO_CONFIG_1));
  }

  /** `getAccData` / `getGyroData` after the scale: nothing for a negative
      scale, otherwise select bank 0 and read six bytes from `first`, each
      axis assembled high byte first. */
  function DataScript(sens: Answer<int>, l: Link, first: Byte): (a: Answer<Reading>)
    requires sens.wire.dev.Valid()
    ensures a.wire.dev.Valid() && a.wire.id == sens.wire.id
    ensures a.value == NoReading <==> sens.value < 0
    ensures sens.value < 0 ==> a.wire == sens.wire
    ensures sens.value >= 0 ==> a.value.sens == sens.value
    ensures sens.value >= 0 && l.busNum == sens.wire.id ==>
            a.wire.log == sens.wire.log + [BankSelectTx(l, REG_BANK_0), ReadTx(l, first, 6)]
    ensures sens.value >= 0 && l.busNum != sens.wire.id ==>
            a == Answer(sens.wire, Reading(Axes(0, 0, 0), sens.value))
  {
    if sens.value < 0 then Answer(sens.wire, NoReading)
    else
      var w1 := SelectBankOp(sens.wire, l, REG_BANK_0);
      var r := ReadNOp(w1, l, first, 6);
      Answer(r.wire, Reading(AxesOf(r.data), sens.value))
  }

  /** `getAccData`: the scale, then the samples. The early return for a
      negative scale is never taken: the bus always sees bank 2 selected,
      the configuration read, bank 0 selected and the six-byte read. */
  function GetAccDataScript(w: Wire, l: Link): (a: Answer<Reading>)
    requires w.dev.Valid()
    ensures a.wire.dev.Valid() && a.wire.id == w.id
    ensures a.value != NoReading
    ensures l.busNum == w.id ==>
            a.wire.log == w.log + [BankSelectTx(l, REG_BANK_2), ReadTx(l, ACCEL_CONFIG_1, 1),
                                   BankSelectTx(l, REG_BANK_0), ReadTx(l, ACCEL_XOUT_H, 6)]
    ensures l.busNum != w.id ==> a == Answer(w, Reading(Axes(0, 0, 0), 16384))
  {
    LogAppend(w.log, [BankSelectTx(l, REG_BANK_2), ReadTx(l, ACCEL_CONFIG_1, 1)],
              [BankSelectTx(l, REG_BANK_0), ReadTx(l, ACCEL_XOUT_H, 6)]);
    DataScript(GetAccSensScript(w, l), l, ACCEL_XOUT_H)
  }

  /** `getGyroData`: the same with the gyroscope's configuration and block. */
  function GetGyroDataScript(w: Wire, l: Link): (a: Answer<Reading>)
    requires w.dev.Valid()
    ensures a.wire.dev.Valid() && a.wire.id == w.id
    ensures a.value != NoReading
    ensures l.busNum == w.id ==>
            a.wire.log == w.log + [BankSelectTx(l, REG_BANK_2), ReadTx(l, GYRO_CONFIG_1, 1),
                                   BankSelectTx(l, REG_BANK_0), ReadTx(l, GYRO_XOUT_H, 6)]
    ensures l.busNum != w.id ==> a == Answer(w, Reading(Axes(0, 0, 0), 1310))
  {
    LogAppend(w.log, [BankSelectTx(l, REG_BANK_2), ReadTx(l, GYRO_CONFIG_1, 1)],
              [BankSelectTx(l, REG_BANK_0), ReadTx(l, GYRO_XOUT_H, 6)]);
    DataScript(GetGyroSensScript(w, l), l, GYRO_XOUT_H)
  }

  /** Appending to a log in two steps appends both parts in order. */
  lemma LogAppend(log: seq<seq<Word>>, first: seq<seq<Word>>, second: seq<seq<Word>>)
    ensures (log + first) + second == log + (first + second)
  {
  }

  /** The six bank-0 registers from `first` on. */
  function Block(d: Device, first: Byte): (raw: seq<Byte>)
    ensures |raw| == 6
  {
    [d.regs(0, first), d.regs(0, first + 1), d.regs(0, first + 2),
     d.regs(0, first + 3), d.regs(0, first + 4), d.regs(0, first + 5)]
  }

  /** A six-byte read in bank 0 from the accelerometer or gyroscope block
      returns those six registers. */
  lemma ReadBlock(d: Device, first: Byte)
    requires d.Valid() && d.bank == 0 && (first == ACCEL_XOUT_H || first == GYRO_XOUT_H)
    ensures ReadRegs(d, first, 6) == Block(d, first)
  {
    ReadRegsTwo(d, first);
    ReadRegsTwo(d, first + 2);
    ReadRegsTwo(d, first + 4);
    ReadRegsSplitTwo(d, first, 4);
    ReadRegsSplitTwo(d, first + 2, 2);
    ReadRegsSplitTwo(d, first + 4, 0);
  }

  /** A positive scale leads to bank 0 and the six output registers. */
  lemma DataEffect(sens: Answer<int>, l: Link, first: Byte)
    requires Attached(sens.wire, l) && sens.value > 0
    requires first == ACCEL_XOUT_H || first == GYRO_XOUT_H
    ensures var a := DataScript(sens, l, first);
            && a.wire.dev == InBank(sens.wire.dev, 0)
            && a.value == Reading(AxesOf(Block(sens.wire.dev, first)), sens.value)
  {
    var w1 := SelectBankOp(sens.wire, l, REG_BANK_0);
    SelectBankEffect(sens.wire, l, REG_BANK_0);
    BankCodes(0, REG_BANK_0);
    ReadEffect(w1, l, first, 6);
    ReadBlock(w1.dev, first);
  }

  /** On the attached sensor `getAccData` passes through bank 2 and ends in
      bank 0, never takes the early return for a negative scale, and returns the samples in
      ACCEL_XOUT_H..ACCEL_ZOUT_L of bank 0 with the resolution of the code in
      bank 2. */
  lemma GetAccDataEffect(w: Wire, l: Link)
    requires Attached(w, l)
    ensures var a := GetAccDataScript(w, l);
            && a.wire.dev == InBank(w.dev, 0)
            && a.value == Reading(AxesOf(Block(w.dev, ACCEL_XOUT_H)),
                                  AccelScale(w.dev.regs(2, ACCEL_CONFIG_1) & SENSITIVITY_BM))
  {
    var s := GetAccSensScript(w, l);
    GetAccSensEffect(w, l);
    DataEffect(s, l, ACCEL_XOUT_H);
  }

  /** The same for `getGyroData`, GYRO_XOUT_H..GYRO_ZOUT_L and GYRO_CONFIG_1. */
  lemma GetGyroDataEffect(w: Wire, l: Link)
    requires Attached(w, l)
    ensures var a := GetGyroDataScript(w, l);
            && a.wire.dev == InBank(w.dev, 0)
            && a.value == Reading(AxesOf(Block(w.dev, GYRO_XOUT_H)),
                                  GyroScaleTenths(w.dev.regs(2, GYRO_CONFIG_1) & SENSITIVITY_BM))
  {
    var s := GetGyroSensScript(w, l);
    GetGyroSensEffect(w, l);
    DataEffect(s, l, GYRO_XOUT_H);
  }

  /** As written, `setAccSens` writes the configuration register of the
      current bank. After `whoAmI`, `disableSleep`, `enableSleep` or a data
      getter that is bank 0, where 0x14 is not ACCEL_CONFIG_1, and the scale
      `getAccSens` reads back afterwards is the one configured before. */
  lemma SetAccSensMissesBank2(w: Wire, l: Link, scale: Byte)
    requires Attached(w, l) && w.dev.bank == 0 && IsAccelCode(scale)
    ensures GetAccSensScript(SetAccSensScript(w, l, scale).wire, l).value == GetAccSensScript(w, l).value
  {
    var w' := SetAccSensScript(w, l, scale).wire;
    SetAccSensEffect(w, l, scale);
    GetAccSensEffect(w, l);
    GetAccSensEffect(w', l);
    assert w'.dev.regs(2, ACCEL_CONFIG_1) == w.dev.regs(2, ACCEL_CONFIG_1);
  }

  /** The same for `setGyroSens`: from bank 0 GYRO_CONFIG_1 of bank 2 is never reached. */
  lemma SetGyroSensMissesBank2(w: Wire, l: Link, scale: Byte)
    requires Attached(w, l) && w.dev.bank == 0 && IsGyroCode(scale)
    ensures GetGyroSensScript(SetGyroSensScript(w, l, scale).wire, l).value == GetGyroSensScript(w, l).value
  {
    var w' := SetGyroSensScript(w, l, scale).wire;
    SetGyroSensEffect(w, l, scale);
    GetGyroSensEffect(w, l);
    GetGyroSensEffect(w', l);
    assert w'.dev.regs(2, GYRO_CONFIG_1) == w.dev.regs(2, GYRO_CONFIG_1);
  }

  /** Even with bank 2 selected (as after `getAccSens`), the write-back as
      written cannot raise the scale: with 2 g configured, a request for
      16 g reports success and 16384 LSB/g is still read back, not 2048. */
  lemma SetAccSensCannotRaise(w: Wire, l: Link)
    requires Attached(w, l) && w.dev.bank == 2
    requires w.dev.regs(2, ACCEL_CONFIG_1) & SENSITIVITY_BM == ACCEL_SENS_2G
    ensures SetAccSensScript(w, l, ACCEL_SENS_16G).value == 0
    ensures GetAccSensScript(SetAccSensScript(w, l, ACCEL_SENS_16G).wire, l).value == 16384
    ensures AccelScale(ACCEL_SENS_16G) == 2048
  {
    var w' := SetAccSensScript(w, l, ACCEL_SENS_16G).wire;
    SetAccSensEffect(w, l, ACCEL_SENS_16G);
    SensWriteBackCannotRaise(w.dev.regs(2, ACCEL_CONFIG_1));
    GetAccSensEffect(w', l);
  }

  /** The same for `setGyroSens`: with 250 dps configured and bank 2
      selected, a request for 2000 dps reports success and 131.0 LSB/dps is
      still read back, not 16.4. */
  lemma SetGyroSensCannotRaise(w: Wire, l: Link)
    requires Attached(w, l) && w.dev.bank == 2
    requires w.dev.regs(2, GYRO_CONFIG_1) & SENSITIVITY_BM == GYRO_SENS_250DPS
    ensures SetGyroSensScript(w, l, GYRO_SENS_2000DPS).value == 0
    ensures GetGyroSensScript(SetGyroSensScript(w, l, GYRO_SENS_2000DPS).wire, l).value == 1310
    ensures GyroScaleTenths(GYRO_SENS_2000DPS) == 164
  {
    var w' := SetGyroSensScript(w, l, GYRO_SENS_2000DPS).wire;
    SetGyroSensEffect(w, l, GYRO_SENS_2000DPS);
    SensWriteBackCannotRaise(w.dev.regs(2, GYRO_CONFIG_1));
    GetGyroSensEffect(w', l);
  }

  /** `setAccSens` as its comment describes it: refuse an invalid code, then
      select bank 2 and store the code in the sensitivity field of
      ACCEL_CONFIG_1, every other bit unaltered. */
  function SetAccSensCorrected(w: Wire, l: Link, scale: Byte): (a: Answer<int>)
    requires w.dev.Valid()
    ensures a.wire.dev.Valid() && a.wire.id == w.id
    ensures !IsAccelCode(scale) ==> a == Answer(w, -1)
    ensures IsAccelCode(scale) ==> a.value == 0
    ensures IsAccelCode(scale) && l.busNum == w.id ==>
            && |a.wire.log| == |w.log| + 3
            && a.wire.log[..|w.log| + 2] == w.log + [BankSelectTx(l, REG_BANK_2), ReadTx(l, ACCEL_CONFIG_1, 1)]
            && IsWriteTx(a.wire.log[|w.log| + 2], l, ACCEL_CONFIG_1)
    ensures l.busNum != w.id ==> a.wire == w
  {
    if !IsAccelCode(scale) then Answer(w, -1)
    else
      var w1 := SelectBankOp(w, l, REG_BANK_2);
      var c := ReadByte(w1, l, ACCEL_CONFIG_1);
      LogSteps(w.log, BankSelectTx(l, REG_BANK_2), ReadTx(l, ACCEL_CONFIG_1, 1),
               WriteSeq(l.wr, ACCEL_CONFIG_1, [SensUpdate(c.value, scale)]));
      var o := WriteOp(c.wire, l, ACCEL_CONFIG_1, SensUpdate(c.value, scale));
      Answer(o.wire, 0)
  }

  /** `setGyroSens` corrected in the same way. */
  function SetGyroSensCorrected(w: Wire, l: Link, scale: Byte): (a: Answer<int>)
    requires w.dev.Valid()
    ensures a.wire.dev.Valid() && a.wire.id == w.id
    ensures !IsGyroCode(scale) ==> a == Answer(w, -1)
    ensures IsGyroCode(scale) ==> a.value == 0
    ensures IsGyroCode(scale) && l.busNum == w.id ==>
            && |a.wire.log| == |w.log| + 3
            && a.wire.log[..|w.log| + 2] == w.log + [BankSelectTx(l, REG_BANK_2), ReadTx(l, GYRO_CONFIG_1, 1)]
            && IsWriteTx(a.wire.log[|w.log| + 2], l, GYRO_CONFIG_1)
    ensures l.busNum != w.id ==> a.wire == w
  {
    if !IsGyroCode(scale) then Answer(w, -1)
    else
      var w1 := SelectBankOp(w, l, REG_BANK_2);
      var c := ReadByte(w1, l, GYRO_CONFIG_1);
      LogSteps(w.log, BankSelectTx(l, REG_BANK_2), ReadTx(l, GYRO_CONFIG_1, 1),
               WriteSeq(l.wr, GYRO_CONFIG_1, [SensUpdate(c.value, scale)]));
      var o := WriteOp(c.wire, l, GYRO_CONFIG_1, SensUpdate(c.value, scale));
      Answer(o.wire, 0)
  }

  /** The corrected setter refuses an invalid code without bus access;
      from any bank, a valid code ends up in the field, the other bits of
      ACCEL_CONFIG_1 and every other register are kept, and `getAccSens`
      then reports the resolution of the requested code. */
  lemma SetAccSensCorrectedEffect(w: Wire, l: Link, scale: Byte)
    requires Attached(w, l)
    ensures !IsAccelCode(scale) ==> SetAccSensCorrected(w, l, scale) == Answer(w, -1)
    ensures IsAccelCode(scale) ==>
            var a := SetAccSensCorrected(w, l, scale);
            var c := w.dev.regs(2, ACCEL_CONFIG_1);
            && a.value == 0
            && StoredOnly(w.dev, a.wire.dev, 2, ACCEL_CONFIG_1, SensUpdate(c, scale))
            && a.wire.dev.regs(2, ACCEL_CONFIG_1) & !SENSITIVITY_BM == c & !SENSITIVITY_BM
            && GetAccSensScript(a.wire, l).value == AccelScale(scale)
  {
    if IsAccelCode(scale) {
      var c := w.dev.regs(2, ACCEL_CONFIG_1);
      ReadModifyWriteIn(w, l, 2, ACCEL_CONFIG_1, SensUpdate(c, scale));
      SensitivityCodesExhaustField(scale);
      SensUpdateEffect(c, scale);
      GetAccSensEffect(SetAccSensCorrected(w, l, scale).wire, l);
    }
  }

  /** The same for the corrected `setGyroSens` and `getGyroSens`. */
  lemma SetGyroSensCorrectedEffect(w: Wire, l: Link, scale: Byte)
    requires Attached(w, l)
    ensures !IsGyroCode(scale) ==> SetGyroSensCorrected(w, l, scale) == Answer(w, -1)
    ensures IsGyroCode(scale) ==>
            var a := SetGyroSensCorrected(w, l, scale);
            var c := w.dev.regs(2, GYRO_CONFIG_1);
            && a.value == 0
            && StoredOnly(w.dev, a.wire.dev, 2, GYRO_CONFIG_1, SensUpdate(c, scale))
            && a.wire.dev.regs(2, GYRO_CONFIG_1) & !SENSITIVITY_BM == c & !SENSITIVITY_BM
            && GetGyroSensScript(a.wire, l).value == GyroScaleTenths(scale)
  {
    if IsGyroCode(scale) {
      var c := w.dev.regs(2, GYRO_CONFIG_1);
      ReadModifyWriteIn(w, l, 2, GYRO_CONFIG_1, SensUpdate(c, scale));
      SensitivityCodesExhaustField(scale);
      SensUpdateEffect(c, scale);
      GetGyroSensEffect(SetGyroSensCorrected(w, l, scale).wire, l);
    }
  }

  /** The driver object: the accessor it owns and the debug flag. */
  class ICM20948 {
    const i2c: I2CFunctions
    var debug: bool

    ghost predicate Valid()
      reads this, i2c, i2c.bus
    {
      i2c.Valid()
    }

    /** `ICM20948(debug, bus, address)`, defaults false, 2 and 0x69: an
        accessor on that bus for that device, big-endian. */
    constructor (transport: Bus, debug: bool := false, busNum: Byte := 2, address: Byte := IMU_I2C_ADDR)
      requires transport.Valid() && !transport.isOpen
      ensures Valid() && i2c.bus == transport && this.debug == debug
      ensures i2c.LinkOf() == Link(busNum, WriteAddress(address), ReadAddress(address), BIG_ENDIAN)
      ensures address == IMU_I2C_ADDR ==> i2c.LinkOf().wr == 0xD2 && i2c.LinkOf().rd == 0xD3
    {
      this.debug := debug;
      i2c := new I2CFunctions(transport, busNum, address);
    }

    /** `selectBankReg(code)`. */
    method SelectBankReg(code: Byte)
      requires Valid()
      modifies i2c.bus
      ensures Valid()
      ensures i2c.bus.State() == SelectBankOp(old(i2c.bus.State()), i2c.LinkOf(), code)
    {
      var _ := i2c.Write(REG_BANK_SEL, code);
    }

    /** `whoAmI()`. */
    method WhoAmI() returns (ok: bool)
      requires Valid()
      modifies i2c.bus
      ensures Valid()
      ensures var a := WhoAmIScript(old(i2c.bus.State()), i2c.LinkOf());
              i2c.bus.State() == a.wire && ok == a.value
    {
      SelectBankReg(REG_BANK_0);
      var imuAddr := i2c.Read(WHO_AM_I);
      if imuAddr == 0xEA {
        ok := true;
      } else {
        ok := false;
      }
    }

    /** `disableSleep()`. */
    method DisableSleep() returns (result: int)
      requires Valid()
      modifies i2c.bus
      ensures Valid()
      ensures var a := DisableSleepScript(old(i2c.bus.State()), i2c.LinkOf());
              i2c.bus.State() == a.wire && result == a.value
    {
      SelectBankReg(REG_BANK_0);
      var status := i2c.Read(PWR_MGMT_1);
      status := BitClear(status, SLEEP_BIT);
      status := status & !INT_OSC_BM;
      result := i2c.Write(PWR_MGMT_1, status);
    }

    /** `enableSleep()`. */
    method EnableSleep() returns (result: int)
      requires Valid()
      modifies i2c.bus
      ensures Valid()
      ensures var a := EnableSleepScript(old(i2c.bus.State()), i2c.LinkOf());
              i2c.bus.State() == a.wire && result == a.value
    {
      SelectBankReg(REG_BANK_0);
      var status := i2c.Read(PWR_MGMT_1);
      status := BitSet(status, SLEEP_BIT);
      result := i2c.Write(PWR_MGMT_1, status);
    }

    /** `getStatus()`, without the messages it prints. */
    method GetStatus() returns (combinedStatus: Word)
      requires Valid()
      modifies i2c.bus
      ensures Valid()
      ensures var a := GetStatusScript(old(i2c.bus.State()), i2c.LinkOf());
              i2c.bus.State() == a.wire && combinedStatus == a.value
    {
      var status0 := i2c.Read(PWR_MGMT_1);
      var status1 := i2c.Read(PWR_MGMT_2);
      combinedStatus := ((status0 as Word) << 8) | ((status0 as Word) & 0xFF);
    }

    /** `setAccSens(scale)`. */
    method SetAccSens(scale: Byte) returns (result: int)
      requires Valid()
      modifies i2c.bus
      ensures Valid()
      ensures var a := SetAccSensScript(old(i2c.bus.State()), i2c.LinkOf(), scale);
              i2c.bus.State() == a.wire && result == a.value
    {
      if !IsAccelCode(scale) {
        return -1;
      }
      var config := i2c.Read(ACCEL_CONFIG_1);
      config := config & ((config & !SENSITIVITY_BM) | scale);
      var _ := i2c.Write(ACCEL_CONFIG_1, config);
      result := 0;
    }

    /** `getAccSens()`. */
    method GetAccSens() returns (sens: int)
      requires Valid()
      modifies i2c.bus
      ensures Valid()
      ensures var a := GetAccSensScript(old(i2c.bus.State()), i2c.LinkOf());
              i2c.bus.State() == a.wire && sens == a.value
    {
      SelectBankReg(REG_BANK_2);
      var raw := i2c.Read(ACCEL_CONFIG_1);
      sens := AccelScale(raw & SENSITIVITY_BM);
    }

    /** `getAccData()`, returning the raw samples and the resolution instead
        of their floating-point quotients. */
    method GetAccData() returns (acc: Reading)
      requires Valid()
      modifies i2c.bus
      ensures Valid()
      ensures var a := GetAccDataScript(old(i2c.bus.State()), i2c.LinkOf());
              i2c.bus.State() == a.wire && acc == a.value
    {
      var sens := GetAccSens();
      if sens < 0 {
        return NoReading;
      }
      SelectBankReg(REG_BANK_0);
      var raw := i2c.ReadN(ACCEL_XOUT_H, 6);
      acc := Reading(AxesOf(raw), sens);
    }

    /** `setGyroSens(scale)`. */
    method SetGyroSens(scale: Byte) returns (result: int)
      requires Valid()
      modifies i2c.bus
      ensures Valid()
      ensures var a := SetGyroSensScript(old(i2c.bus.State()), i2c.LinkOf(), scale);
              i2c.bus.State() == a.wire && result == a.value
    {
      if !IsGyroCode(scale) {
        return -1;
      }
      var config := i2c.Read(GYRO_CONFIG_1);
      config := config & ((config & !SENSITIVITY_BM) | scale);
      var _ := i2c.Write(GYRO_CONFIG_1, config);
      result := 0;
    }

    /** `getGyroSens()`, in tenths of an LSB per degree per second. */
    method GetGyroSens() returns (sens: int)
      requires Valid()
      modifies i2c.bus
      ensures Valid()
      ensures var a := GetGyroSensScript(old(i2c.bus.State()), i2c.LinkOf());
              i2c.bus.State() == a.wire && sens == a.value
    {
      SelectBankReg(REG_BANK_2);
      var raw := i2c.Read(GYRO_CONFIG_1);
      sens := GyroScaleTenths(raw & SENSITIVITY_BM);
    }

    /** `getGyroData()`, returning the raw samples and the resolution. */
    method GetGyroData() returns (gyro: Reading)
      requires Valid()
      modifies i2c.bus
      ensures Valid()
      ensures var a := GetGyroDataScript(old(i2c.bus.State()), i2c.LinkOf());
              i2c.bus.State() == a.wire && gyro == a.value
    {
      var sens := GetGyroSens();
      if sens < 0 {
        return NoReading;
      }
      SelectBankReg(REG_BANK_0);
      var raw := i2c.ReadN(GYRO_XOUT_H, 6);
      gyro := Reading(AxesOf(raw), sens);
    }
  }
}
