/** The bus transport the accessor talks to, modelled as one simulated I2C bus
    with one device on it: a bank-addressed register file laid out like the
    ICM-20948's (four banks of 256 byte registers and a bank-select register
    present in every bank).

    A transaction is the sequence of 16-bit bus words the transport is given:
    a byte value is sent as is, and the two markers below ask for a repeated
    start and for one byte to be read. */
module Transport {
  import opened Bits
  import opened Registers

  const I2C_RESTART: Word := 1 << 8
  const I2C_READ: Word := 2 << 8

  /** The device: its 7-bit address, the bank currently selected and the
      register file, giving the value of each register of each bank. */
  datatype Device = Device(addr: Byte, bank: nat, regs: (nat, Byte) -> Byte) {
    ghost predicate Valid() {
      addr < 128 && bank < 4
    }

    /** The address byte that opens a transaction with this device. */
    function WriteAddr(): Byte {
      addr << 1
    }
  }

  /** The value register `reg` reads as: the bank-select register reads back
      the code of the current bank, every other register comes from the
      current bank. */
  function GetReg(d: Device, reg: Byte): Byte
    requires d.Valid()
  {
    if reg == REG_BANK_SEL then BankCode(d.bank) else d.regs(d.bank, reg)
  }

  /** Writing `v` to register `reg`: the bank-select register takes bits 5..4
      as the new bank; every other register is stored in the current bank. */
  function PutReg(d: Device, reg: Byte, v: Byte): (d': Device)
    requires d.Valid()
    ensures d'.Valid() && d'.addr == d.addr
    ensures reg == REG_BANK_SEL ==> d'.regs == d.regs && d'.bank == BankOf(v)
    ensures reg != REG_BANK_SEL ==> d'.bank == d.bank && GetReg(d', reg) == v
    ensures reg != REG_BANK_SEL ==> forall b: nat, k: Byte | b != d.bank || k != reg :: d'.regs(b, k) == d.regs(b, k)
  {
    if reg == REG_BANK_SEL then
      d.(bank := BankOf(v))
    else
      d.(regs := (b: nat, k: Byte) => if b == d.bank && k == reg then v else d.regs(b, k))
  }

  /** Writing one register leaves every other register as it reads, as long
      as neither is the bank-select register. */
  lemma PutRegIsolation(d: Device, reg: Byte, v: Byte, other: Byte)
    requires d.Valid() && reg != REG_BANK_SEL && other != REG_BANK_SEL && other != reg
    ensures GetReg(PutReg(d, reg, v), other) == GetReg(d, other)
  {
    var d' := PutReg(d, reg, v);
    assert d'.regs(d.bank, other) == d.regs(d.bank, other);
  }

  /** Register `reg + i`, with the register pointer wrapping at 256. */
  function RegAt(reg: Byte, i: nat): Byte {
    ((reg as int + i) % 256) as Byte
  }

  lemma PointerIncrement(reg: Byte)
    ensures (reg + 1) as int == (reg as int + 1) % 256
  {
  }

  lemma ModShift(a: int, i: nat)
    requires 0 <= a < 256
    ensures ((a + 1) % 256 + i) % 256 == (a + (i + 1)) % 256
  {
  }

  /** Advancing the pointer by one and then by i is advancing it by i + 1. */
  lemma RegAtStep(reg: Byte, i: nat)
    ensures RegAt(reg + 1, i) == RegAt(reg, i + 1)
  {
    PointerIncrement(reg);
    ModShift(reg as int, i);
    assert ((reg + 1) as int + i) % 256 == (reg as int + (i + 1)) % 256;
  }

  lemma RegAtSteps(reg: Byte, next: Byte)
    requires next == reg + 1
    ensures RegAt(reg, 0) == reg
    ensures forall i: nat :: RegAt(next, i) == RegAt(reg, i + 1)
  {
    assert (reg as int + 0) % 256 == reg as int;
    forall i: nat ensures RegAt(next, i) == RegAt(reg, i + 1) {
      RegAtStep(reg, i);
    }
  }

  /** Writes `data` to consecutive registers from `reg` on (auto-increment). */
  function WriteRegs(d: Device, reg: Byte, data: seq<Byte>): (d': Device)
    requires d.Valid()
    ensures d'.Valid() && d'.addr == d.addr
    decreases |data|
  {
    if data == [] then d else WriteRegs(PutReg(d, reg, data[0]), reg + 1, data[1..])
  }

  /** A one-byte write is `PutReg`. */
  lemma WriteRegsOne(d: Device, reg: Byte, v: Byte)
    requires d.Valid()
    ensures WriteRegs(d, reg, [v]) == PutReg(d, reg, v)
  {
    assert [v][1..] == [];
  }

  /** Below the last register the pointer advances without wrapping. */
  lemma NoWrap(reg: Byte)
    requires reg as int < 255
    ensures (reg + 1) as int == reg as int + 1
  {
    PointerIncrement(reg);
  }

  /** Writing a run of registers that stays below the bank-select register
      keeps the bank and every register outside the run. */
  lemma {:induction false} WriteRegsKeeps(d: Device, reg: Byte, data: seq<Byte>, b: nat, k: Byte)
    requires d.Valid() && reg as int + |data| <= REG_BANK_SEL as int
    requires b != d.bank || k as int < reg as int || k as int >= reg as int + |data|
    ensures WriteRegs(d, reg, data).bank == d.bank
    ensures WriteRegs(d, reg, data).regs(b, k) == d.regs(b, k)
    decreases |data|
  {
    if data != [] {
      NoWrap(reg);
      var d1 := PutReg(d, reg, data[0]);
      assert d1.regs(b, k) == d.regs(b, k);
      WriteRegsKeeps(d1, reg + 1, data[1..], b, k);
    }
  }

  /** The same for every register at once. */
  lemma WriteRegsFrame(d: Device, reg: Byte, data: seq<Byte>)
    requires d.Valid() && reg as int + |data| <= REG_BANK_SEL as int
    ensures forall b: nat, k: Byte | b != d.bank || k as int < reg as int || k as int >= reg as int + |data| ::
              WriteRegs(d, reg, data).regs(b, k) == d.regs(b, k)
  {
    forall b: nat, k: Byte | b != d.bank || k as int < reg as int || k as int >= reg as int + |data|
      ensures WriteRegs(d, reg, data).regs(b, k) == d.regs(b, k)
    {
      WriteRegsKeeps(d, reg, data, b, k);
    }
  }

  lemma ReadRegsCons(d: Device, reg: Byte, n: nat)
    requires d.Valid() && n > 0
    ensures ReadRegs(d, reg, n) == [GetReg(d, reg)] + ReadRegs(d, reg + 1, n - 1)
  {
  }

  /** The bytes of such a run can be read back from where they were written. */
  lemma {:induction false} WriteRegsReadBack(d: Device, reg: Byte, data: seq<Byte>)
    requires d.Valid() && reg as int + |data| <= REG_BANK_SEL as int
    ensures ReadRegs(WriteRegs(d, reg, data), reg, |data|) == data
    decreases |data|
  {
    if data != [] {
      NoWrap(reg);
      var d1 := PutReg(d, reg, data[0]);
      WriteRegsReadBack(d1, reg + 1, data[1..]);
      WriteRegsKeeps(d1, reg + 1, data[1..], d.bank, reg);
      ReadRegsCons(WriteRegs(d1, reg + 1, data[1..]), reg, |data|);
      assert data == [data[0]] + data[1..];
    }
  }

  /** Register `reg + i` of the current bank holds the i-th byte written. */
  lemma WriteRegsAt(d: Device, reg: Byte, data: seq<Byte>)
    requires d.Valid() && reg as int + |data| <= REG_BANK_SEL as int
    ensures forall i | 0 <= i < |data| :: GetReg(WriteRegs(d, reg, data), RegAt(reg, i)) == data[i]
  {
    WriteRegsReadBack(d, reg, data);
    ReadRegsAt(WriteRegs(d, reg, data), reg, |data|);
  }

  /** Reads `n` consecutive registers from `reg` on (auto-increment). */
  function ReadRegs(d: Device, reg: Byte, n: nat): (r: seq<Byte>)
    requires d.Valid()
    ensures |r| == n
    decreases n
  {
    if n == 0 then [] else [GetReg(d, reg)] + ReadRegs(d, reg + 1, n - 1)
  }

  /** A one-byte read gets register `reg`. */
  lemma ReadRegsOne(d: Device, reg: Byte)
    requires d.Valid()
    ensures ReadRegs(d, reg, 1) == [GetReg(d, reg)]
  {
    assert ReadRegs(d, reg, 1) == [GetReg(d, reg)] + ReadRegs(d, reg + 1, 0);
  }

  /** A two-byte read gets register `reg`, then register `reg + 1`. */
  lemma ReadRegsTwo(d: Device, reg: Byte)
    requires d.Valid()
    ensures ReadRegs(d, reg, 2) == [GetReg(d, reg), GetReg(d, reg + 1)]
  {
    assert ReadRegs(d, reg + 1, 1) == [GetReg(d, reg + 1)] + ReadRegs(d, reg + 1 + 1, 0);
  }

  /** A read of n + 2 registers is a two-byte read followed by a read of n. */
  lemma ReadRegsSplitTwo(d: Device, reg: Byte, n: nat)
    requires d.Valid()
    ensures ReadRegs(d, reg, n + 2) == ReadRegs(d, reg, 2) + ReadRegs(d, reg + 2, n)
  {
    assert ReadRegs(d, reg + 1, n + 1) == [GetReg(d, reg + 1)] + ReadRegs(d, reg + 1 + 1, n);
    assert ReadRegs(d, reg + 1, 1) == [GetReg(d, reg + 1)] + ReadRegs(d, reg + 1 + 1, 0);
    assert reg + 1 + 1 == reg + 2;
  }

  /** The i-th byte read is register `reg + i`, the pointer wrapping at 256. */
  lemma {:induction false} ReadRegsAt(d: Device, reg: Byte, n: nat)
    requires d.Valid()
    ensures forall i | 0 <= i < n :: ReadRegs(d, reg, n)[i] == GetReg(d, RegAt(reg, i))
    decreases n
  {
    if n > 0 {
      ReadRegsAt(d, reg + 1, n - 1);
      RegAtSteps(reg, reg + 1);
      var r := ReadRegs(d, reg, n);
      forall i | 0 <= i < n ensures r[i] == GetReg(d, RegAt(reg, i)) {
        if i > 0 {
          assert r[i] == ReadRegs(d, reg + 1, n - 1)[i - 1];
          assert RegAt(reg + 1, i - 1) == RegAt(reg, i);
        }
      }
    }
  }

  /** The number of read markers in a transaction: how many bytes it asks for. */
  function ReadCount(s: seq<Word>): nat {
    if s == [] then 0 else (if s[0] == I2C_READ then 1 else 0) + ReadCount(s[1..])
  }

  /** [address, register, byte...]: set the register pointer, then write. */
  predicate IsWriteShape(s: seq<Word>) {
    |s| >= 2 && forall i | 1 <= i < |s| :: s[i] < 256
  }

  /** [address, register, RESTART, address|1, READ...]: set the register pointer, then read. */
  predicate IsReadShape(s: seq<Word>) {
    |s| >= 4 && s[1] < 256 && s[2] == I2C_RESTART && s[3] == s[0] | 1
    && forall i | 4 <= i < |s| :: s[i] == I2C_READ
  }

  function Narrow(ws: seq<Word>): (bs: seq<Byte>)
    requires forall i | 0 <= i < |ws| :: ws[i] < 256
    ensures |bs| == |ws| && forall i | 0 <= i < |ws| :: bs[i] as Word == ws[i]
  {
    if ws == [] then [] else [ws[0] as Byte] + Narrow(ws[1..])
  }

  /** Bytes as bus words, one word per byte. */
  function Widen(bs: seq<Byte>): (ws: seq<Word>)
    ensures |ws| == |bs| && forall i | 0 <= i < |bs| :: ws[i] == bs[i] as Word
  {
    if bs == [] then [] else [bs[0] as Word] + Widen(bs[1..])
  }

  /** Narrowing undoes widening. */
  lemma NarrowWiden(bs: seq<Byte>)
    ensures Narrow(Widen(bs)) == bs
  {
    var r := Narrow(Widen(bs));
    assert |r| == |bs|;
    forall i | 0 <= i < |bs| ensures r[i] == bs[i] {
      assert r[i] as Word == bs[i] as Word;
    }
  }

  /** n read markers. */
  function Reads(n: nat): (s: seq<Word>)
    ensures |s| == n && forall i | 0 <= i < n :: s[i] == I2C_READ
  {
    seq(n, _ => I2C_READ)
  }

  datatype Reply = Reply(dev: Device, status: int, received: seq<Byte>)

  /** What the device does with one transaction: status 0 when it acknowledged
      a register write or a register read, -1 when nobody answered the address
      or the words do not form one of those two shapes. */
  function Transact(d: Device, s: seq<Word>): (r: Reply)
    requires d.Valid()
    ensures r.dev.Valid() && r.dev.addr == d.addr
    ensures r.status == 0 || r.status == -1
    ensures r.status != 0 ==> r.dev == d && r.received == []
    ensures |r.received| == 0 || |r.received| == ReadCount(s)
  {
    if |s| == 0 || s[0] != d.WriteAddr() as Word then
      Reply(d, -1, [])
    else if IsReadShape(s) then
      assert s[3] < 256;
      ReadCountOfHeader(s);
      Reply(d, 0, ReadRegs(d, s[1] as Byte, |s| - 4))
    else if IsWriteShape(s) then
      NeverAReadCount(s);
      Reply(WriteRegs(d, s[1] as Byte, Narrow(s[2..])), 0, [])
    else
      Reply(d, -1, [])
  }

  /** An acknowledged transaction receives exactly as many bytes as it has
      read markers. */
  lemma TransactReceivedExact(d: Device, s: seq<Word>)
    requires d.Valid()
    ensures Transact(d, s).status == 0 ==> |Transact(d, s).received| == ReadCount(s)
  {
    if |s| > 0 && s[0] == d.WriteAddr() as Word {
      if IsReadShape(s) {
        assert s[3] < 256;
        ReadCountOfHeader(s);
      } else if IsWriteShape(s) {
        NeverAReadCount(s);
      }
    }
  }

  lemma {:induction false} CountOfReads(s: seq<Word>)
    requires forall i | 0 <= i < |s| :: s[i] == I2C_READ
    ensures ReadCount(s) == |s|
  {
    if s != [] {
      CountOfReads(s[1..]);
    }
  }

  /** A transaction made of four byte-sized header words, the third a
      RESTART, followed only by READ words asks for exactly as many bytes as
      there are READ words. */
  lemma {:induction false} ReadCountOfHeader(s: seq<Word>)
    requires |s| >= 4 && s[0] < 256 && s[1] < 256 && s[2] == I2C_RESTART && s[3] < 256
    requires forall i | 4 <= i < |s| :: s[i] == I2C_READ
    ensures ReadCount(s) == |s| - 4
  {
    assert ReadCount(s) == ReadCount(s[1..]) == ReadCount(s[2..]);
    assert ReadCount(s[2..]) == ReadCount(s[3..]) == ReadCount(s[4..]) by {
      assert s[2..][1..] == s[3..] && s[3..][1..] == s[4..];
    }
    CountOfReads(s[4..]);
  }

  lemma {:induction false} NoReadsInBytes(s: seq<Word>)
    requires forall i | 0 <= i < |s| :: s[i] < 256
    ensures ReadCount(s) == 0
  {
    if s != [] {
      NoReadsInBytes(s[1..]);
    }
  }

  lemma NeverAReadCount(s: seq<Word>)
    requires IsWriteShape(s) && s[0] < 256
    ensures ReadCount(s) == 0
  {
    NoReadsInBytes(s);
  }

  /** A register write addressed to the device is acknowledged and writes
      the data bytes from `reg` on. */
  lemma TransactWrite(d: Device, reg: Byte, data: seq<Byte>)
    requires d.Valid()
    ensures Transact(d, [d.WriteAddr() as Word, reg as Word] + Widen(data)) == Reply(WriteRegs(d, reg, data), 0, [])
  {
    var s := [d.WriteAddr() as Word, reg as Word] + Widen(data);
    WriteShapeOf(d, reg, data, s);
    assert s[2..] == Widen(data);
    NarrowWiden(data);
    assert s[1] as Byte == reg;
  }

  lemma WriteShapeOf(d: Device, reg: Byte, data: seq<Byte>, s: seq<Word>)
    requires d.Valid() && s == [d.WriteAddr() as Word, reg as Word] + Widen(data)
    ensures s[0] == d.WriteAddr() as Word && !IsReadShape(s) && IsWriteShape(s)
  {
    if |s| >= 4 {
      assert s[2] == data[0] as Word;
    }
  }

  /** A register read addressed to the device is acknowledged, changes
      nothing and returns n registers from `reg` on. */
  lemma TransactRead(d: Device, reg: Byte, n: nat)
    requires d.Valid()
    ensures Transact(d, [d.WriteAddr() as Word, reg as Word, I2C_RESTART, (d.WriteAddr() | 1) as Word] + Reads(n))
         == Reply(d, 0, ReadRegs(d, reg, n))
  {
    var s := [d.WriteAddr() as Word, reg as Word, I2C_RESTART, (d.WriteAddr() | 1) as Word] + Reads(n);
    ReadShapeOf(d, reg, n, s);
    assert s[1] as Byte == reg;
    assert |s| - 4 == n;
  }

  lemma ReadShapeOf(d: Device, reg: Byte, n: nat, s: seq<Word>)
    requires d.Valid() && s == [d.WriteAddr() as Word, reg as Word, I2C_RESTART, (d.WriteAddr() | 1) as Word] + Reads(n)
    ensures s[0] == d.WriteAddr() as Word && IsReadShape(s)
  {
    assert (d.WriteAddr() | 1) as Word == s[0] | 1;
  }

  /** A transaction that does not open with the device's write address is not acknowledged. */
  lemma TransactNack(d: Device, s: seq<Word>)
    requires d.Valid() && (|s| == 0 || s[0] != d.WriteAddr() as Word)
    ensures Transact(d, s) == Reply(d, -1, [])
  {
  }

  /** The whole transport state: the bus number, the device and every
      transaction put on the wire so far. */
  datatype Wire = Wire(id: Byte, dev: Device, log: seq<seq<Word>>)

  /** A transport call as the caller sees it: the new transport state, the
      status and the caller's receive buffer afterwards. */
  datatype Outcome = Outcome(wire: Wire, status: int, data: seq<Byte>)

  /** One `i2c_send_sequence` call: when a handle to the bus is held, the
      transaction goes on the wire and the received bytes overwrite the front
      of the caller's buffer; otherwise it fails with -1 and nothing changes. */
  function Exchange(w: Wire, connected: bool, s: seq<Word>, buf: seq<Byte>): (o: Outcome)
    requires w.dev.Valid() && ReadCount(s) <= |buf|
    ensures o.wire.id == w.id && o.wire.dev.Valid() && o.wire.dev.addr == w.dev.addr
    ensures |o.data| == |buf|
    ensures !connected ==> o == Outcome(w, -1, buf)
    ensures connected ==> o.wire.log == w.log + [s]
  {
    if !connected then
      Outcome(w, -1, buf)
    else
      var r := Transact(w.dev, s);
      Outcome(Wire(w.id, r.dev, w.log + [s]), r.status, r.received + buf[|r.received|..])
  }

  /** The transport service: `i2c_open`, `i2c_send_sequence`, `i2c_close`
      against the one simulated bus numbered `id`, whose device file is
      opened as descriptor `fd`. */
  class Bus {
    const id: Byte
    const fd: nat
    var dev: Device
    var log: seq<seq<Word>>
    var isOpen: bool

    ghost predicate Valid()
      reads this`dev
    {
      dev.Valid()
    }

    ghost function State(): Wire
      reads this`dev, this`log
    {
      Wire(id, dev, log)
    }

    constructor (id: Byte, fd: nat, dev: Device)
      requires dev.Valid()
      ensures Valid() && !isOpen && this.fd == fd
      ensures State() == Wire(id, dev, [])
    {
      this.id := id;
      this.fd := fd;
      this.dev := dev;
      log := [];
      isOpen := false;
    }

    /** Opening bus `busNum` gives the descriptor only when it names this bus, -1 otherwise. */
    method Open(busNum: Byte) returns (handle: int)
      modifies this`isOpen
      ensures handle == if busNum == id then fd else -1
      ensures isOpen == (busNum == id)
    {
      if busNum == id {
        handle := fd;
        isOpen := true;
      } else {
        handle := -1;
        isOpen := false;
      }
    }

    method Send(handle: int, s: seq<Word>, buf: array?<Byte>) returns (status: int)
      requires Valid()
      requires ReadCount(s) > 0 ==> buf != null && ReadCount(s) <= buf.Length
      modifies this`dev, this`log, buf
      ensures Valid()
      ensures var o := Exchange(old(State()), handle == fd && old(isOpen), s,
                                if buf == null then [] else old(buf[..]));
              State() == o.wire && status == o.status && (buf != null ==> buf[..] == o.data)
    {
      if handle == fd && isOpen {
        var r := Transact(dev, s);
        dev := r.dev;
        log := log + [s];
        status := r.status;
        if buf != null {
          ghost var before := buf[..];
          forall i | 0 <= i < |r.received| {
            buf[i] := r.received[i];
          }
          assert buf[..] == r.received + before[|r.received|..];
        }
      } else {
        status := -1;
      }
    }

    method Close(handle: int)
      modifies this`isOpen
      ensures !isOpen
    {
      isOpen := false;
    }
  }
}
