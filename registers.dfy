/** Register map of the ICM-20948: device address, bank codes, the bank-0 and
    bank-2 registers the driver uses, sensitivity codes and bit masks. */
module Registers {
  import opened Bits

  /** 7-bit device address with pin AD0 high (0b1101001). */
  const IMU_I2C_ADDR: Byte := 0x69

  /** Codes written to the bank-select register: bank n is `n << 4`. */
  const REG_BANK_0: Byte := 0 << 4
  const REG_BANK_1: Byte := 1 << 4
  const REG_BANK_2: Byte := 2 << 4
  const REG_BANK_3: Byte := 3 << 4

  /** User bank 0. */
  const WHO_AM_I: Byte := 0x00
  const PWR_MGMT_1: Byte := 0x06
  const PWR_MGMT_2: Byte := 0x07
  const ACCEL_XOUT_H: Byte := 0x2D
  const ACCEL_XOUT_L: Byte := 0x2E
  const ACCEL_YOUT_H: Byte := 0x2F
  const ACCEL_YOUT_L: Byte := 0x30
  const ACCEL_ZOUT_H: Byte := 0x31
  const ACCEL_ZOUT_L: Byte := 0x32
  const GYRO_XOUT_H: Byte := 0x33
  const GYRO_XOUT_L: Byte := 0x34
  const GYRO_YOUT_H: Byte := 0x35
  const GYRO_YOUT_L: Byte := 0x36
  const GYRO_ZOUT_H: Byte := 0x37
  const GYRO_ZOUT_L: Byte := 0x38
  const TEMP_OUT_H: Byte := 0x39
  const TEMP_OUT_L: Byte := 0x3A
  /** Writing this register selects a bank; it is present in every bank. */
  const REG_BANK_SEL: Byte := 0x7F

  /** User bank 2. */
  const GYRO_CONFIG_1: Byte := 0x01
  const ACCEL_CONFIG_1: Byte := 0x14

  /** Value of WHO_AM_I on a working part. */
  const WHO_AM_I_VALUE: Byte := 0xEA

  /** Full-scale codes: a 2-bit field at bits 1..2 of the configuration register. */
  const ACCEL_SENS_2G: Byte := 0 << 1
  const ACCEL_SENS_4G: Byte := 1 << 1
  const ACCEL_SENS_8G: Byte := 2 << 1
  const ACCEL_SENS_16G: Byte := 3 << 1

  const GYRO_SENS_250DPS: Byte := 0 << 1
  const GYRO_SENS_500DPS: Byte := 1 << 1
  const GYRO_SENS_1000DPS: Byte := 2 << 1
  const GYRO_SENS_2000DPS: Byte := 3 << 1

  /** Bit masks. */
  const SENSITIVITY_BM: Byte := 3 << 1
  const INT_OSC_BM: Byte := 7 << 0
  const ACCEL_AXES_EN: Byte := 7 << 3
  const GYRO_AXES_EN: Byte := 7 << 0
  const ACCEL_ALL_AXES_ON: Byte := 0 << 3
  const GYRO_ALL_AXES_ON: Byte := 0 << 0

  /** Bit of PWR_MGMT_1 that puts the part to sleep. */
  const SLEEP_BIT: nat := 6

  /** The code that selects bank n. */
  function BankCode(n: nat): (code: Byte)
    requires n < 4
  {
    if n == 0 then REG_BANK_0 else if n == 1 then REG_BANK_1 else if n == 2 then REG_BANK_2 else REG_BANK_3
  }

  /** The bank a value written to the bank-select register selects: bits 5..4. */
  function BankOf(v: Byte): (n: nat)
    ensures n < 4
  {
    var field := (v >> 4) & 3;
    if field == 0 then 0 else if field == 1 then 1 else if field == 2 then 2 else 3
  }

  /** The bank codes are 0x00, 0x10, 0x20, 0x30, so bank n is 16 n; each
      selects its own bank, and bits outside 5..4 do not affect which bank a
      value selects. */
  lemma BankCodes(n: nat, v: Byte)
    requires n < 4
    ensures REG_BANK_0 == 0x00 && REG_BANK_1 == 0x10 && REG_BANK_2 == 0x20 && REG_BANK_3 == 0x30
    ensures BankCode(n) as int == 16 * n
    ensures BankOf(BankCode(n)) == n
    ensures BankOf(v) == BankOf(v & 0x30)
  {
  }

  predicate IsAccelCode(s: Byte) {
    s == ACCEL_SENS_2G || s == ACCEL_SENS_4G || s == ACCEL_SENS_8G || s == ACCEL_SENS_16G
  }

  predicate IsGyroCode(s: Byte) {
    s == GYRO_SENS_250DPS || s == GYRO_SENS_500DPS || s == GYRO_SENS_1000DPS || s == GYRO_SENS_2000DPS
  }

  /** The four codes of each group are distinct and lie inside the sensitivity mask,
      and every value of the masked field is one of them. */
  lemma SensitivityCodesExhaustField(c: Byte)
    ensures |{ACCEL_SENS_2G, ACCEL_SENS_4G, ACCEL_SENS_8G, ACCEL_SENS_16G}| == 4
    ensures |{GYRO_SENS_250DPS, GYRO_SENS_500DPS, GYRO_SENS_1000DPS, GYRO_SENS_2000DPS}| == 4
    ensures IsAccelCode(c) ==> c & !SENSITIVITY_BM == 0
    ensures IsGyroCode(c) ==> c & !SENSITIVITY_BM == 0
    ensures IsAccelCode(c & SENSITIVITY_BM) && IsGyroCode(c & SENSITIVITY_BM)
  {
  }

  /** The accelerometer output registers are 0x2D..0x32, high byte first per axis;
      the gyroscope ones follow at 0x33..0x38, then the temperature pair. */
  lemma OutputRegistersConsecutive()
    ensures [ACCEL_XOUT_H, ACCEL_XOUT_L, ACCEL_YOUT_H, ACCEL_YOUT_L, ACCEL_ZOUT_H, ACCEL_ZOUT_L]
         == [0x2D, 0x2E, 0x2F, 0x30, 0x31, 0x32]
    ensures [GYRO_XOUT_H, GYRO_XOUT_L, GYRO_YOUT_H, GYRO_YOUT_L, GYRO_ZOUT_H, GYRO_ZOUT_L]
         == [0x33, 0x34, 0x35, 0x36, 0x37, 0x38]
    ensures ACCEL_ZOUT_L + 1 == GYRO_XOUT_H && GYRO_ZOUT_L + 1 == TEMP_OUT_H
    ensures TEMP_OUT_H == 0x39 && TEMP_OUT_L == TEMP_OUT_H + 1
  {
  }

  /** The oscillator mask is bits 0..2 and leaves the sleep bit alone; the two
      axis-enable masks of PWR_MGMT_2 are disjoint. */
  lemma MasksLayout()
    ensures INT_OSC_BM == 0x07 && BitVal(INT_OSC_BM, SLEEP_BIT) == 0
    ensures ACCEL_AXES_EN == 0x38 && GYRO_AXES_EN == 0x07
    ensures ACCEL_AXES_EN & GYRO_AXES_EN == 0
  {
  }
}
