/** The pure arithmetic of the sensor driver: the full-scale tables read by
    the sensitivity getters, the sensitivity write-back of the setters, and
    the signed 16-bit assembly of axis samples. */
module Scales {
  import opened Bits
  import opened Registers

  /** Accelerometer resolution in LSB per g for a masked `ACCEL_CONFIG_1`
      field; -1 for a value that is not one of the four codes. */
  function AccelScale(raw: Byte): (sens: int)
    ensures sens != -1 <==> IsAccelCode(raw)
  {
    if raw == ACCEL_SENS_2G then 16384
    else if raw == ACCEL_SENS_4G then 8192
    else if raw == ACCEL_SENS_8G then 4096
    else if raw == ACCEL_SENS_16G then 2048
    else -1
  }

  /** Gyroscope resolution in tenths of an LSB per degree per second (131.0,
      65.5, 32.8, 16.4 written as 1310, 655, 328, 164); -10 (that is -1.0)
      for a value that is not one of the four codes. */
  function GyroScaleTenths(raw: Byte): (sens: int)
    ensures sens != -10 <==> IsGyroCode(raw)
  {
    if raw == GYRO_SENS_250DPS then 1310
    else if raw == GYRO_SENS_500DPS then 655
    else if raw == GYRO_SENS_1000DPS then 328
    else if raw == GYRO_SENS_2000DPS then 164
    else -10
  }

  /** The full-scale range of each accelerometer code, in g. */
  function AccelRangeG(code: Byte): (g: nat)
    requires IsAccelCode(code)
  {
    if code == ACCEL_SENS_2G then 2 else if code == ACCEL_SENS_4G then 4 else if code == ACCEL_SENS_8G then 8 else 16
  }

  /** Every accelerometer code spreads its full range over the whole signed
      16-bit output: resolution times range is 2^15. */
  lemma AccelScaleCoversInt16(code: Byte)
    requires IsAccelCode(code)
    ensures AccelScale(code) > 0 && AccelScale(code) * AccelRangeG(code) == 0x8000
  {
  }

  /** The sensitivity getters mask the register with `SENSITIVITY_BM`, and
      every masked value is one of the four codes: their -1 defaults are
      never taken. */
  lemma DefaultScalesUnreachable(config: Byte)
    ensures AccelScale(config & SENSITIVITY_BM) > 0
    ensures GyroScaleTenths(config & SENSITIVITY_BM) > 0
  {
    SensitivityCodesExhaustField(config);
  }

  /** The setters' write-back as written: `c & ((c & ~SENSITIVITY_BM) | s)`. */
  function SensWriteBack(c: Byte, s: Byte): Byte {
    c & ((c & !SENSITIVITY_BM) | s)
  }

  /** The write-back keeps every bit outside the sensitivity field, and the
      new field is the old field AND the requested code: bits can only be
      cleared, never set. This holds for any code inside the field, so for
      the accelerometer and the gyroscope codes alike. */
  lemma SensWriteBackEffect(c: Byte, s: Byte)
    requires s & !SENSITIVITY_BM == 0
    ensures SensWriteBack(c, s) & !SENSITIVITY_BM == c & !SENSITIVITY_BM
    ensures SensWriteBack(c, s) & SENSITIVITY_BM == c & s
  {
  }

  /** The field update the setters' comment describes: the requested code in
      the sensitivity field, every other bit unaltered. */
  function SensUpdate(c: Byte, s: Byte): Byte {
    (c & !SENSITIVITY_BM) | s
  }

  /** The intended update stores exactly the requested code and keeps every
      other bit, for any code inside the field. */
  lemma SensUpdateEffect(c: Byte, s: Byte)
    requires s & !SENSITIVITY_BM == 0
    ensures SensUpdate(c, s) & !SENSITIVITY_BM == c & !SENSITIVITY_BM
    ensures SensUpdate(c, s) & SENSITIVITY_BM == s
  {
  }

  /** As written, a setter cannot raise the scale: from the lowest code (2 g,
      or 250 dps: both are 0) no other code can be reached, and asking for the
      highest (16 g, or 2000 dps) leaves the lowest in place, whereas the
      intended update stores it. */
  lemma SensWriteBackCannotRaise(c: Byte)
    requires c & SENSITIVITY_BM == ACCEL_SENS_2G
    ensures SensWriteBack(c, ACCEL_SENS_16G) & SENSITIVITY_BM == ACCEL_SENS_2G
    ensures SensUpdate(c, ACCEL_SENS_16G) & SENSITIVITY_BM == ACCEL_SENS_16G
  {
  }

  /** The signed value `(int16_t)((hi << 8) | lo)`: the 16-bit pattern read as
      two's complement. */
  function Int16Of(hi: Byte, lo: Byte): (v: int)
    ensures -0x8000 <= v < 0x8000
    ensures (hi < 0x80) == (v >= 0)
  {
    var u := hi as int * 256 + lo as int;
    if u < 0x8000 then u else u - 0x10000
  }

  /** The byte holding a number below 256, counted up from zero. */
  function ByteOf(n: nat): (b: Byte)
    requires n < 256
  {
    if n == 0 then 0 else ByteOf(n - 1) + 1
  }

  lemma Succ(b: Byte)
    requires b < 255
    ensures (b + 1) as int == b as int + 1
  {
  }

  /** `ByteOf` converts exactly: the byte's value is the number. */
  lemma {:induction false} ByteOfValue(n: nat)
    requires n < 256
    ensures ByteOf(n) as int == n
  {
    if n > 0 {
      ByteOfValue(n - 1);
      Succ(ByteOf(n - 1));
    }
  }

  lemma ValueInjective(x: Byte, y: Byte)
    requires x as int == y as int
    ensures x == y
  {
  }

  /** Every byte is the `ByteOf` of its value. */
  lemma ByteOfCast(b: Byte)
    ensures ByteOf(b as int) == b
  {
    ByteOfValue(b as int);
    ValueInjective(ByteOf(b as int), b);
  }

  /** The two bytes of a signed 16-bit value as the sensor stores them, high
      byte first. */
  function Int16Bytes(v: int): (bytes: (Byte, Byte))
    requires -0x8000 <= v < 0x8000
  {
    var u := if v < 0 then v + 0x10000 else v;
    (ByteOf(u / 256), ByteOf(u % 256))
  }

  lemma DivMod256(h: int, l: int)
    requires 0 <= h < 256 && 0 <= l < 256
    ensures (h * 256 + l) / 256 == h && (h * 256 + l) % 256 == l
  {
  }

  /** Every signed 16-bit value survives being stored as two bytes and assembled. */
  lemma Int16RoundTrip(v: int)
    requires -0x8000 <= v < 0x8000
    ensures Int16Of(Int16Bytes(v).0, Int16Bytes(v).1) == v
  {
    var u := if v < 0 then v + 0x10000 else v;
    var q, r := u / 256, u % 256;
    assert u == q * 256 + r && 0 <= q < 256 && 0 <= r < 256;
    ByteOfValue(q);
    ByteOfValue(r);
  }

  /** Every pair of bytes is the storage of the value assembled from it: the
      assembly loses nothing. */
  lemma Int16BytesRoundTrip(hi: Byte, lo: Byte)
    ensures Int16Bytes(Int16Of(hi, lo)) == (hi, lo)
  {
    var h, l := hi as int, lo as int;
    var u := h * 256 + l;
    var v := Int16Of(hi, lo);
    assert (if v < 0 then v + 0x10000 else v) == u;
    DivMod256(h, l);
    ByteOfCast(hi);
    ByteOfCast(lo);
    assert Int16Bytes(v) == (ByteOf(u / 256), ByteOf(u % 256));
  }

  /** The raw samples of the three axes. */
  datatype Axes = Axes(x: int, y: int, z: int)

  /** The three axes of a 6-byte block `[XH, XL, YH, YL, ZH, ZL]`, each high byte first. */
  function AxesOf(raw: seq<Byte>): (a: Axes)
    requires |raw| == 6
    ensures -0x8000 <= a.x < 0x8000 && -0x8000 <= a.y < 0x8000 && -0x8000 <= a.z < 0x8000
  {
    Axes(Int16Of(raw[0], raw[1]), Int16Of(raw[2], raw[3]), Int16Of(raw[4], raw[5]))
  }

  /** The block a sensor holding the given samples would return. */
  function AxesBytes(a: Axes): (raw: seq<Byte>)
    requires -0x8000 <= a.x < 0x8000 && -0x8000 <= a.y < 0x8000 && -0x8000 <= a.z < 0x8000
    ensures |raw| == 6
  {
    var x, y, z := Int16Bytes(a.x), Int16Bytes(a.y), Int16Bytes(a.z);
    [x.0, x.1, y.0, y.1, z.0, z.1]
  }

  /** Decoding a block recovers the samples it encodes, and every block is
      the encoding of the samples it decodes to. */
  lemma AxesRoundTrip(a: Axes, raw: seq<Byte>)
    requires -0x8000 <= a.x < 0x8000 && -0x8000 <= a.y < 0x8000 && -0x8000 <= a.z < 0x8000
    requires |raw| == 6
    ensures AxesOf(AxesBytes(a)) == a
    ensures AxesBytes(AxesOf(raw)) == raw
  {
    Int16RoundTrip(a.x);
    Int16RoundTrip(a.y);
    Int16RoundTrip(a.z);
    Int16BytesRoundTrip(raw[0], raw[1]);
    Int16BytesRoundTrip(raw[2], raw[3]);
    Int16BytesRoundTrip(raw[4], raw[5]);
  }
}
