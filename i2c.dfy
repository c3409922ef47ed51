/** The register accessor: binds the bus transport to one device address and
    turns "write/read n bytes at register r" into one transaction each.

    Every operation is given twice: as a function from the transport state to
    an `Outcome` (what the operation does), and as a method of
    `I2CFunctions` that builds the word sequence, opens the bus, sends and
    closes, proved to have exactly that outcome. */
module I2C {
  import opened Bits
  import opened Transport

  /** The 8-bit write address of a device address: `(a << 1) | 0`, truncated to a byte. */
  function WriteAddress(a: Byte): (wr: Byte)
    ensures wr & 1 == 0 && wr >> 1 == a & 0x7F
  {
    (a << 1) | 0
  }

  /** The 8-bit read address: `(a << 1) | 1`. */
  function ReadAddress(a: Byte): (rd: Byte)
    ensures rd & 1 == 1 && rd >> 1 == a & 0x7F
  {
    (a << 1) | 1
  }

  /** The device address recovered from a bus address: `(w >> 1) & 0x7F`; it
      is a 7-bit address whose write and read addresses are the given one with
      bit 0 cleared and set. */
  function DeviceAddress(wr: Byte): (a: Byte)
    ensures a < 128 && WriteAddress(a) == wr & 0xFE && ReadAddress(a) == wr | 1
  {
    (wr >> 1) & 0x7F
  }

  /** The write address is twice the device address modulo 256, so even; the
      read address is the write address with bit 0 set, one more than it; and
      the device address comes back modulo 128. */
  lemma AddressDerivation(a: Byte)
    ensures WriteAddress(a) as int == (2 * a as int) % 256 && WriteAddress(a) as int % 2 == 0
    ensures ReadAddress(a) == WriteAddress(a) | 1 && ReadAddress(a) as int == WriteAddress(a) as int + 1
    ensures DeviceAddress(WriteAddress(a)) as int == a as int % 128
    ensures a < 128 ==> DeviceAddress(WriteAddress(a)) == a
  {
    WriteAddressValue(a);
    ReadAddressValue(a);
    DeviceAddressBack(a);
  }

  lemma WriteAddressValue(a: Byte)
    ensures WriteAddress(a) as int == (2 * a as int) % 256 && WriteAddress(a) as int % 2 == 0
  {
    assert WriteAddress(a) == a << 1;
    DoubleShift(a);
  }

  lemma DoubleShift(a: Byte)
    ensures (a << 1) as int == (2 * a as int) % 256 && (a << 1) as int % 2 == 0
  {
  }

  lemma ReadAddressValue(a: Byte)
    ensures ReadAddress(a) == WriteAddress(a) | 1 && ReadAddress(a) as int == WriteAddress(a) as int + 1
  {
    var w := WriteAddress(a);
    assert w & 1 == 0;
    assert w | 1 == w + 1;
  }

  lemma DeviceAddressBack(a: Byte)
    ensures DeviceAddress(WriteAddress(a)) == a & 0x7F
    ensures DeviceAddress(WriteAddress(a)) as int == a as int % 128
  {
  }

  /** A register write: `[wr, reg, data...]`. */
  function WriteSeq(wr: Byte, reg: Byte, data: seq<Byte>): (s: seq<Word>)
    ensures |s| == |data| + 2 && s[0] == wr as Word && s[1] == reg as Word
    ensures forall i | 0 <= i < |data| :: s[i + 2] == data[i] as Word
    ensures ReadCount(s) == 0
  {
    var s := [wr as Word, reg as Word] + Widen(data);
    NoReadsInBytes(s);
    s
  }

  lemma WriteSeqOne(wr: Byte, reg: Byte, data: Byte)
    ensures WriteSeq(wr, reg, [data]) == [wr as Word, reg as Word, data as Word]
  {
  }

  /** A register read of n bytes: `[wr, reg, RESTART, rd, READ x n]`. */
  function ReadSeq(wr: Byte, rd: Byte, reg: Byte, n: nat): (s: seq<Word>)
    ensures |s| == n + 4 && s[..4] == [wr as Word, reg as Word, I2C_RESTART, rd as Word]
    ensures forall i | 4 <= i < |s| :: s[i] == I2C_READ
    ensures ReadCount(s) == n
  {
    var s := [wr as Word, reg as Word, I2C_RESTART, rd as Word] + Reads(n);
    ReadCountOfHeader(s);
    s
  }

  /** `n` zero bytes: a receive buffer as the accessor declares it (`= {0}`). */
  function Zeros(n: nat): (z: seq<Byte>)
    ensures |z| == n && forall i | 0 <= i < n :: z[i] == 0
  {
    seq(n, _ => 0)
  }

  /** The 16-bit value of the first two bytes received, per byte order:
      big-endian takes the first byte as high byte, little-endian the second. */
  function Assemble(endianness: bool, b0: Byte, b1: Byte): (v: Word)
    ensures endianness == BIG_ENDIAN ==> v >> 8 == b0 as Word && v & 0xFF == b1 as Word
    ensures endianness == LITTLE_ENDIAN ==> v >> 8 == b1 as Word && v & 0xFF == b0 as Word
  {
    if endianness == BIG_ENDIAN then ((b0 as Word) << 8) | (b1 as Word)
    else ((b1 as Word) << 8) | (b0 as Word)
  }

  function HighByte(v: Word): Byte {
    ((v >> 8) & 0xFF) as Byte
  }

  function LowByte(v: Word): Byte {
    ((v >> 0) & 0xFF) as Byte
  }

  /** The two bytes `write2` sends, in the order it sends them: high then low
      for big-endian, low then high for little-endian. */
  function SplitWord(endianness: bool, v: Word): (bytes: (Byte, Byte))
    ensures Assemble(endianness, bytes.0, bytes.1) == v
  {
    if endianness == BIG_ENDIAN then (HighByte(v), LowByte(v)) else (LowByte(v), HighByte(v))
  }

  /** Splitting an assembled word gives back the two bytes it was assembled from. */
  lemma SplitAssembled(endianness: bool, b0: Byte, b1: Byte)
    ensures SplitWord(endianness, Assemble(endianness, b0, b1)) == (b0, b1)
  {
    var v := Assemble(endianness, b0, b1);
    if endianness == BIG_ENDIAN {
      ByteHalves(v, b0, b1);
    } else {
      ByteHalves(v, b1, b0);
    }
  }

  lemma ByteHalves(v: Word, hi: Byte, lo: Byte)
    requires v >> 8 == hi as Word && v & 0xFF == lo as Word
    ensures HighByte(v) == hi && LowByte(v) == lo
  {
  }

  /** What the accessor knows of its device: bus number, the two bus
      addresses and the byte order. */
  datatype Link = Link(busNum: Byte, wr: Byte, rd: Byte, endianness: bool)

  /** The accessor is bound to the device on the bus: the bus number names
      the bus and the write address is the device's. */
  ghost predicate Attached(w: Wire, l: Link) {
    w.dev.Valid() && l.busNum == w.id && l.wr == w.dev.WriteAddr() && l.rd == l.wr | 1
  }

  /** `write(reg, data)`: one transaction `[wr, reg, data]`; its status is returned as is. */
  function WriteOp(w: Wire, l: Link, reg: Byte, data: Byte): (o: Outcome)
    requires w.dev.Valid()
    ensures o.wire.id == w.id && o.wire.dev.Valid() && o.data == []
    ensures o.status == 0 || o.status == -1
    ensures o.status != 0 ==> o.wire.dev == w.dev
    ensures l.busNum == w.id ==> o.wire.log == w.log + [WriteSeq(l.wr, reg, [data])]
    ensures l.busNum != w.id ==> o == Outcome(w, -1, [])
  {
    WriteNOp(w, l, reg, [data])
  }

  /** `write2(reg, v)`: two single-byte writes to `reg` and `reg + 1` (the
      register number wraps as a byte), bytes in endianness order; only the
      second write's status is returned. */
  function Write2Op(w: Wire, l: Link, reg: Byte, v: Word): (o: Outcome)
    requires w.dev.Valid()
    ensures o.wire.id == w.id && o.wire.dev.Valid() && o.data == []
    ensures o.status == 0 || o.status == -1
    ensures var bytes := SplitWord(l.endianness, v);
            l.busNum == w.id ==>
              o.wire.log == w.log + [WriteSeq(l.wr, reg, [bytes.0]), WriteSeq(l.wr, reg + 1, [bytes.1])]
    ensures l.busNum != w.id ==> o == Outcome(w, -1, [])
  {
    var bytes := SplitWord(l.endianness, v);
    var first := WriteOp(w, l, reg, bytes.0);
    WriteOp(first.wire, l, reg + 1, bytes.1)
  }

  /** `writen(reg, data, n)`: one transaction `[wr, reg, data[0..n)]`. */
  function WriteNOp(w: Wire, l: Link, reg: Byte, data: seq<Byte>): (o: Outcome)
    requires w.dev.Valid()
    ensures o.wire.id == w.id && o.wire.dev.Valid() && o.data == []
    ensures o.status == 0 || o.status == -1
    ensures o.status != 0 ==> o.wire.dev == w.dev
    ensures l.busNum == w.id ==> o.wire.log == w.log + [WriteSeq(l.wr, reg, data)]
    ensures l.busNum != w.id ==> o == Outcome(w, -1, [])
  {
    Exchange(w, l.busNum == w.id, WriteSeq(l.wr, reg, data), [])
  }

  /** `readn(reg, n)`: one transaction reading n bytes into a zeroed buffer;
      `read` and `read2` are the cases n = 1 and n = 2. */
  function ReadNOp(w: Wire, l: Link, reg: Byte, n: nat): (o: Outcome)
    requires w.dev.Valid()
    ensures o.wire.id == w.id && o.wire.dev.Valid() && |o.data| == n
    ensures o.status == 0 || o.status == -1
    ensures o.status != 0 ==> o.wire.dev == w.dev && o.data == Zeros(n)
    ensures l.busNum == w.id ==> o.wire.log == w.log + [ReadSeq(l.wr, l.rd, reg, n)]
    ensures l.busNum != w.id ==> o == Outcome(w, -1, Zeros(n))
  {
    Exchange(w, l.busNum == w.id, ReadSeq(l.wr, l.rd, reg, n), Zeros(n))
  }

  /** The word `read2(reg)` returns: the two received bytes in endianness
      order, and 0 when the read fails. */
  function Read2Value(w: Wire, l: Link, reg: Byte): (v: Word)
    requires w.dev.Valid()
    ensures var o := ReadNOp(w, l, reg, 2);
            (l.endianness == BIG_ENDIAN ==> v >> 8 == o.data[0] as Word && v & 0xFF == o.data[1] as Word)
            && (l.endianness == LITTLE_ENDIAN ==> v >> 8 == o.data[1] as Word && v & 0xFF == o.data[0] as Word)
            && (o.status != 0 ==> v == 0)
  {
    var data := ReadNOp(w, l, reg, 2).data;
    Assemble(l.endianness, data[0], data[1])
  }

  /** Against the device it is attached to, an n-byte write stores the bytes
      in the registers from `reg` on, puts exactly `[wr, reg, data...]` on the
      wire and reports 0; addressed to another device it changes no register
      and reports -1; on a bus it cannot open it sends nothing and reports -1. */
  lemma WriteNEffect(w: Wire, l: Link, reg: Byte, data: seq<Byte>)
    requires w.dev.Valid()
    ensures var o := WriteNOp(w, l, reg, data);
      && (Attached(w, l) ==> o.status == 0 && o.wire.dev == WriteRegs(w.dev, reg, data) && Attached(o.wire, l))
      && (l.busNum == w.id ==> o.wire.log == w.log + [WriteSeq(l.wr, reg, data)])
      && (l.busNum == w.id && l.wr != w.dev.WriteAddr() ==> o.status == -1 && o.wire.dev == w.dev)
      && (l.busNum != w.id ==> o.status == -1 && o.wire == w)
  {
    var s := WriteSeq(l.wr, reg, data);
    if Attached(w, l) {
      TransactWrite(w.dev, reg, data);
      var o := WriteNOp(w, l, reg, data);
      assert o.wire.dev.addr == w.dev.addr && o.wire.id == w.id;
    } else if l.busNum == w.id && l.wr != w.dev.WriteAddr() {
      assert s[0] != w.dev.WriteAddr() as Word;
      TransactNack(w.dev, s);
    }
  }

  /** A single-byte write to the attached device is `PutReg` of that byte, and
      exactly `[wr, reg, data]` goes on the wire. */
  lemma WriteEffect(w: Wire, l: Link, reg: Byte, data: Byte)
    requires w.dev.Valid()
    ensures var o := WriteOp(w, l, reg, data);
      && (Attached(w, l) ==> o.status == 0 && o.wire.dev == PutReg(w.dev, reg, data) && Attached(o.wire, l))
      && (l.busNum == w.id ==> o.wire.log == w.log + [[l.wr as Word, reg as Word, data as Word]])
      && (l.busNum == w.id && l.wr != w.dev.WriteAddr() ==> o.status == -1 && o.wire.dev == w.dev)
      && (l.busNum != w.id ==> o.status == -1 && o.wire == w)
  {
    WriteNEffect(w, l, reg, [data]);
    WriteSeqOne(l.wr, reg, data);
    WriteRegsOne(w.dev, reg, data);
  }

  /** Against the device it is attached to, an n-byte read puts exactly
      `[wr, reg, RESTART, rd, READ x n]` on the wire, changes nothing on the
      device and returns its registers reg, reg+1, ... of the current bank;
      when the transport fails the zeroed buffer comes back untouched. */
  lemma ReadEffect(w: Wire, l: Link, reg: Byte, n: nat)
    requires w.dev.Valid()
    ensures var o := ReadNOp(w, l, reg, n);
      && (Attached(w, l) ==> o.status == 0 && o.wire.dev == w.dev && o.data == ReadRegs(w.dev, reg, n) && Attached(o.wire, l))
      && (l.busNum == w.id ==> o.wire.log == w.log + [ReadSeq(l.wr, l.rd, reg, n)])
      && (l.busNum == w.id && l.wr != w.dev.WriteAddr() ==> o.status == -1 && o.wire.dev == w.dev && o.data == Zeros(n))
      && (l.busNum != w.id ==> o.status == -1 && o.wire == w && o.data == Zeros(n))
  {
    var s := ReadSeq(l.wr, l.rd, reg, n);
    if Attached(w, l) {
      TransactRead(w.dev, reg, n);
      assert ReadRegs(w.dev, reg, n) + Zeros(n)[n..] == ReadRegs(w.dev, reg, n);
    } else if l.busNum == w.id && l.wr != w.dev.WriteAddr() {
      assert s[0] != w.dev.WriteAddr() as Word;
      TransactNack(w.dev, s);
      assert [] + Zeros(n)[0..] == Zeros(n);
    }
  }

  /** `readn` after `writen` of n bytes at the same register gives the bytes
      back, as long as the registers written stay below the bank-select one. */
  lemma WriteNReadNRoundTrip(w: Wire, l: Link, reg: Byte, data: seq<Byte>)
    requires Attached(w, l) && reg as int + |data| <= Registers.REG_BANK_SEL as int
    ensures ReadNOp(WriteNOp(w, l, reg, data).wire, l, reg, |data|).data == data
  {
    var o := WriteNOp(w, l, reg, data);
    WriteNEffect(w, l, reg, data);
    ReadEffect(o.wire, l, reg, |data|);
    WriteRegsReadBack(w.dev, reg, data);
  }

  /** The simulated transport fails only for lasting reasons, so the
      second write of `write2`, whose status is returned, succeeds exactly
      when the first one does. */
  lemma Write2StatusesAgree(w: Wire, l: Link, reg: Byte, v: Word)
    requires w.dev.Valid()
    ensures Write2Op(w, l, reg, v).status == WriteOp(w, l, reg, SplitWord(l.endianness, v).0).status
  {
    var bytes := SplitWord(l.endianness, v);
    var first := WriteOp(w, l, reg, bytes.0);
    WriteStatus(w, l, reg, bytes.0);
    WriteStatus(first.wire, l, reg + 1, bytes.1);
  }

  /** A write succeeds exactly when the bus opens and the write address is the device's. */
  lemma WriteStatus(w: Wire, l: Link, reg: Byte, data: Byte)
    requires w.dev.Valid()
    ensures var o := WriteOp(w, l, reg, data);
            && o.status == (if l.busNum == w.id && l.wr == w.dev.WriteAddr() then 0 else -1)
            && o.wire.dev.addr == w.dev.addr
  {
    WriteNStatus(w, l, reg, [data]);
  }

  /** The same for an n-byte write. */
  lemma WriteNStatus(w: Wire, l: Link, reg: Byte, data: seq<Byte>)
    requires w.dev.Valid()
    ensures var o := WriteNOp(w, l, reg, data);
            && o.status == (if l.busNum == w.id && l.wr == w.dev.WriteAddr() then 0 else -1)
            && o.wire.dev.addr == w.dev.addr
  {
    if l.busNum == w.id && l.wr == w.dev.WriteAddr() {
      TransactWrite(w.dev, reg, data);
    } else if l.busNum == w.id {
      var s := WriteSeq(l.wr, reg, data);
      assert s[0] != w.dev.WriteAddr() as Word;
      TransactNack(w.dev, s);
    }
  }

  /** `read2` after `write2` at the same register gives back the value, under
      either byte order, as long as neither register is the bank-select one. */
  lemma Write2Read2RoundTrip(w: Wire, l: Link, reg: Byte, v: Word)
    requires Attached(w, l)
    requires reg != Registers.REG_BANK_SEL && reg + 1 != Registers.REG_BANK_SEL
    ensures Write2Op(w, l, reg, v).status == 0
    ensures Read2Value(Write2Op(w, l, reg, v).wire, l, reg) == v
  {
    var bytes := SplitWord(l.endianness, v);
    var w1 := WriteOp(w, l, reg, bytes.0).wire;
    WriteEffect(w, l, reg, bytes.0);
    var w2 := WriteOp(w1, l, reg + 1, bytes.1).wire;
    WriteEffect(w1, l, reg + 1, bytes.1);
    assert w2 == Write2Op(w, l, reg, v).wire;
    ReadEffect(w2, l, reg, 2);
    ReadRegsTwo(w2.dev, reg);
    PutRegIsolation(w1.dev, reg + 1, bytes.1, reg);
  }

  /** The register accessor of one device. `bus` is the transport service. */
  class I2CFunctions {
    const bus: Bus
    var i2cBus: Byte
    var addrWrite: Byte
    var addrRead: Byte
    var endianness: bool

    ghost predicate Valid()
      reads this, bus
    {
      bus.Valid() && !bus.isOpen && addrRead == addrWrite | 1
    }

    function LinkOf(): Link
      reads this
    {
      Link(i2cBus, addrWrite, addrRead, endianness)
    }

    constructor (transport: Bus, busNum: Byte, deviceAddr: Byte, endianness: bool := BIG_ENDIAN)
      requires transport.Valid() && !transport.isOpen
      ensures Valid() && bus == transport
      ensures LinkOf() == Link(busNum, WriteAddress(deviceAddr), ReadAddress(deviceAddr), endianness)
    {
      bus := transport;
      i2cBus := busNum;
      new;
      SetAddress(deviceAddr);
      this.endianness := endianness;
    }

    /** `set_address`: derive both bus addresses from a device address. */
    method SetAddress(newAddr: Byte)
      modifies this`addrWrite, this`addrRead
      ensures addrWrite == WriteAddress(newAddr) && addrRead == ReadAddress(newAddr)
      ensures GetAddress() as int == newAddr as int % 128
    {
      addrWrite := (newAddr << 1) | 0;
      addrRead := (newAddr << 1) | 1;
      AddressDerivation(newAddr);
    }

    /** `get_address`: the device address the write address was derived from. */
    function GetAddress(): (a: Byte)
      reads this
      ensures a < 128 && WriteAddress(a) == addrWrite & 0xFE
    {
      (addrWrite >> 1) & 0x7F
    }

    method Write(reg: Byte, data: Byte) returns (status: int)
      requires Valid()
      modifies bus
      ensures Valid()
      ensures var o := WriteOp(old(bus.State()), LinkOf(), reg, data);
              bus.State() == o.wire && status == o.status
    {
      var sequence := WriteSeq(addrWrite, reg, [data]);
      var handle := bus.Open(i2cBus);
      status := bus.Send(handle, sequence, null);
      bus.Close(handle);
    }

    method Write2(reg: Byte, data: Word) returns (status: int)
      requires Valid()
      modifies bus
      ensures Valid()
      ensures var o := Write2Op(old(bus.State()), LinkOf(), reg, data);
              bus.State() == o.wire && status == o.status
    {
      var low := ((data >> 0) & 0xFF) as Byte;
      var high := ((data >> 8) & 0xFF) as Byte;
      if endianness == BIG_ENDIAN {
        var _ := Write(reg, high);
        status := Write(reg + 1, low);
      } else {
        var _ := Write(reg, low);
        status := Write(reg + 1, high);
      }
    }

    /** `writen(reg, data, n)`: one transaction carrying the first n data bytes. */
    method WriteN(reg: Byte, data: seq<Byte>, n: nat) returns (status: int)
      requires Valid() && n <= |data|
      modifies bus
      ensures Valid()
      ensures var o := WriteNOp(old(bus.State()), LinkOf(), reg, data[..n]);
              bus.State() == o.wire && status == o.status
    {
      var words := WriteSequence(reg, data, n);
      var handle := bus.Open(i2cBus);
      status := bus.Send(handle, words, null);
      bus.Close(handle);
    }

    /** The write sequence of `writen`: address and register, then the data
        bytes copied in one by one. */
    method WriteSequence(reg: Byte, data: seq<Byte>, n: nat) returns (words: seq<Word>)
      requires n <= |data|
      ensures words == WriteSeq(addrWrite, reg, data[..n])
    {
      var m := 2;
      var writeSeqLen := n + m;
      var sequence := new Word[writeSeqLen];
      var header := [addrWrite as Word, reg as Word];
      sequence[0], sequence[1] := header[0], header[1];
      var j := 0;
      for i := m to writeSeqLen
        invariant j == i - m
        invariant forall k | 0 <= k < m :: sequence[k] == header[k]
        invariant forall k | m <= k < i :: sequence[k] == data[k - m] as Word
      {
        sequence[i] := data[j] as Word;
        j := j + 1;
      }
      words := sequence[..];
      assert words == header + Widen(data[..n]);
    }

    method Read(reg: Byte) returns (value: Byte)
      requires Valid()
      modifies bus
      ensures Valid()
      ensures var o := ReadNOp(old(bus.State()), LinkOf(), reg, 1);
              bus.State() == o.wire && value == o.data[0]
    {
      var sequence := ReadSeq(addrWrite, addrRead, reg, 1);
      var received := new Byte[1];
      received[0] := 0;
      assert received[..] == Zeros(1);
      var handle := bus.Open(i2cBus);
      var _ := bus.Send(handle, sequence, received);
      bus.Close(handle);
      value := received[0];
    }

    method Read2(reg: Byte) returns (value: Word)
      requires Valid()
      modifies bus
      ensures Valid()
      ensures bus.State() == ReadNOp(old(bus.State()), LinkOf(), reg, 2).wire
      ensures value == Read2Value(old(bus.State()), LinkOf(), reg)
    {
      var sequence := ReadSeq(addrWrite, addrRead, reg, 2);
      var received := new Byte[2];
      received[0], received[1] := 0, 0;
      assert received[..] == Zeros(2);
      var handle := bus.Open(i2cBus);
      var _ := bus.Send(handle, sequence, received);
      bus.Close(handle);
      value := Assemble(endianness, received[0], received[1]);
    }

    /** `readn(reg, n)`: the received bytes are returned as a sequence of
        length n (the source returns a pointer into its own stack frame). */
    method ReadN(reg: Byte, n: nat) returns (data: seq<Byte>)
      requires Valid()
      modifies bus
      ensures Valid()
      ensures var o := ReadNOp(old(bus.State()), LinkOf(), reg, n);
              bus.State() == o.wire && data == o.data
    {
      var words := ReadSequence(reg, n);
      var received := new Byte[n];
      forall i | 0 <= i < n {
        received[i] := 0;
      }
      assert received[..] == Zeros(n);
      var handle := bus.Open(i2cBus);
      var _ := bus.Send(handle, words, received);
      bus.Close(handle);
      data := received[..];
    }

    /** The read sequence of `readn`: the four header words, then the read
        markers filled in one by one. */
    method ReadSequence(reg: Byte, n: nat) returns (words: seq<Word>)
      ensures words == ReadSeq(addrWrite, addrRead, reg, n)
    {
      var m := 4;
      var readSeqLen := m + n;
      var sequence := new Word[readSeqLen];
      var header := [addrWrite as Word, reg as Word, I2C_RESTART, addrRead as Word];
      sequence[0], sequence[1], sequence[2], sequence[3] := header[0], header[1], header[2], header[3];
      for i := m to readSeqLen
        invariant forall k | 0 <= k < m :: sequence[k] == header[k]
        invariant forall k | m <= k < i :: sequence[k] == I2C_READ
      {
        sequence[i] := I2C_READ;
      }
      words := sequence[..];
      assert words == header + Reads(n);
    }
  }
}
