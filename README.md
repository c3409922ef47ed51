# ICM-20948 driver over a Linux I2C accessor — Dafny model

This project models the two layers of the ICM-20948 inertial-sensor driver:

- **The register accessor `I2C_Functions`.** It derives the 8-bit write and
  read bus addresses from a 7-bit device address. Each operation (one byte,
  a 16-bit word, or n bytes, read or written at a register) becomes
  transactions of 16-bit bus words, sent through the `lsquaredc` transport
  (`i2c_open`, `i2c_send_sequence`, `i2c_close`). Every operation except
  `write2` is one transaction; `write2` is two single-byte writes. A word is assembled from
  its two bytes, and split into them, in the configured byte order.
- **The sensor driver `ICM20948`.** Its registers are grouped in four user
  banks, and a bank is chosen by writing `n << 4` to register 0x7F. Each
  driver call is a short script of accessor calls:
  - select a bank;
  - read a register;
  - update some of its bits (sleep bit, clock select, sensitivity field);
  - write it back.

  The sensitivity getters map the 2-bit full-scale field to a resolution.
  The data getters assemble three big-endian signed 16-bit samples from a
  6-byte block.

Modules, in dependency order:

| file | module | models |
|---|---|---|
| `bits.dfy` | `Bits` | the bit macros and byte-order constants of `I2C_Functions.h` |
| `registers.dfy` | `Registers` | the register map of `ICM20948.h` |
| `transport.dfy` | `Transport` | the transport markers of `lsquaredc.h`, and a simulated bus with one bank-addressed device |
| `i2c.dfy` | `I2C` | `I2C_Functions.cpp` |
| `scales.dfy` | `Scales` | the pure arithmetic of `ICM20948.cpp`: scale tables, sensitivity write-back, int16 assembly |
| `sensor.dfy` | `Sensor` | the driver calls of `ICM20948.cpp` |

Every operation that talks to the bus is written twice:

1. **A function over the transport state.** The state is a `Wire`: the bus
   number, the device, and the log of all transactions sent so far. The
   function returns the new state together with the status, the bytes or the
   value the caller sees. The lemmas about these functions state what the
   operation means for the device's registers.
2. **A method of the class the source defines.** `I2C.I2CFunctions` and
   `Sensor.ICM20948` each have methods that follow the source statement by
   statement: building the word array in a loop,
   opening, sending, closing, and the read-modify-write of a local
   variable. Each method's postcondition says that the new bus state and
   its result are exactly those of the function. `Transport.Bus` is a
   small class standing in for the transport library; its `Send` is
   proved to have the effect of `Exchange`.

The device behind the bus is a stand-in for the hardware:

- It has a 7-bit address, a current bank, and a register file mapping each
  register of each bank to a byte.
- Register 0x7F is common to all banks. Writing it selects the bank given
  by bits 5..4. Reading it gives back the current bank's code.
- A read or write of several bytes auto-increments the register pointer,
  which wraps at 256.
- The device acknowledges only transactions that open with its write
  address and that have the shape of a register write
  (`[wr, reg, data...]`) or a register read
  (`[wr, reg, RESTART, rd, READ...]`).

The class driver methods follow the code as written, quirks included. The
section "Findings" lists those quirks. Each has a lemma that exposes it and
a corrected script that is proved to behave as intended.

## Model

| member | source | states |
|---|---|---|
| Bits.BitVal | I2C_Functions.h:32 | `BIT_VAL(x, bit)` is 1 exactly when bit `bit` of `x` is set, else 0 |
| Bits.BitValIsDigit | I2C_Functions.h:32 | `BIT_VAL(x, bit)` equals the bit-th binary digit of `x` computed by repeated halving, so it is always 0 or 1 |
| Bits.BitSet | I2C_Functions.h:33 | bit `bit` is set in the result, and every other bit is as in `x` |
| Bits.SetBitwise | I2C_Functions.h:33 | after `BIT_SET`, bit `bit` reads 1 and every other bit reads as before |
| Bits.BitClear | I2C_Functions.h:34 | bit `bit` is clear in the result, and every other bit is as in `x` |
| Bits.ClearBitwise | I2C_Functions.h:34 | after `BIT_CLEAR`, bit `bit` reads 0 and every other bit reads as before |
| Bits.BitSetClearInverse | I2C_Functions.h:33-34 | setting a set bit changes nothing; clear undoes set on a clear bit, and set undoes clear on a set bit |
| Bits.BitToggle | I2C_Functions.h:35 | exactly bit `bit` is flipped, every other bit is kept, and the argument is not assigned |
| Bits.BitToggleTwice | I2C_Functions.h:35 | toggling a bit twice gives back the byte |
| Registers.BankCodes | ICM20948.h:32-35 | the bank codes are 0x00, 0x10, 0x20 and 0x30 (bank n is 16 n); each selects its own bank; only bits 5..4 decide the bank |
| Registers.SensitivityCodesExhaustField | ICM20948.h:62-73 | the four accelerometer codes are distinct, and so are the four gyroscope codes; all lie inside `SENSITIVITY_BM`; every masked byte is one code of each group |
| Registers.OutputRegistersConsecutive | ICM20948.h:41-54 | accelerometer outputs are 0x2D..0x32 and gyroscope outputs 0x33..0x38, high byte first per axis; temperature follows at 0x39/0x3A |
| Registers.MasksLayout | ICM20948.h:74-76 | `INT_OSC_BM` is bits 0..2 and does not include the sleep bit; the two axis-enable masks are 0x38 and 0x07 and are disjoint |
| Transport.PutReg | ICM20948.h:55 | a write to 0x7F selects bank `(v >> 4) & 3` and keeps every register; any other write stores `v` in the current bank, and only that register changes |
| Transport.PutRegIsolation | ICM20948.h:55 | writing one register leaves every other register (0x7F excluded) reading as before |
| Transport.ReadRegsAt | I2C_Functions.h:59 | byte i of an n-byte read is register `reg + i`, the pointer wrapping at 256 |
| Transport.WriteRegsKeeps | I2C_Functions.h:56 | a run of consecutive registers written below 0x7F keeps the bank and every register outside the run, in every bank |
| Transport.WriteRegsFrame | I2C_Functions.h:56 | the same for all registers outside the run at once |
| Transport.WriteRegsReadBack | I2C_Functions.h:56 | reading the run back from its first register gives the bytes written |
| Transport.WriteRegsAt | I2C_Functions.h:56 | register `reg + i` of the current bank holds byte i of the run |
| Transport.Transact | lsquaredc.h:41 | a transaction yields status 0 or -1; a failure changes nothing and receives nothing; what is received is nothing or one byte per read marker |
| Transport.TransactReceivedExact | lsquaredc.h:41 | an acknowledged transaction receives exactly one byte per read marker sent |
| Transport.TransactWrite | lsquaredc.h:41 | `[wr, reg, data...]` to the device is acknowledged and writes the data bytes from `reg` on |
| Transport.TransactRead | lsquaredc.h:36-41 | `[wr, reg, RESTART, wr or 1, READ x n]` is acknowledged, changes nothing, and returns n registers from `reg` on |
| Transport.TransactNack | lsquaredc.h:41 | a transaction not opening with the device's write address is refused with -1 |
| Transport.Exchange | lsquaredc.h:41 | without an open handle the send fails with -1 and changes nothing; otherwise it is logged and the received bytes overwrite the front of the buffer |
| Transport.Bus.constructor | lsquaredc.h:39-43 | a closed bus with the given number, descriptor and device, and an empty log |
| Transport.Bus.Open | lsquaredc.h:39 | opening the bus's own number gives its descriptor; any other number gives -1 |
| Transport.Bus.Send | lsquaredc.h:41 | the new bus state, status and buffer are those of `Exchange`, connected exactly when the handle is the open descriptor |
| Transport.Bus.Close | lsquaredc.h:43 | the bus is closed afterwards |
| I2C.WriteAddress | I2C_Functions.cpp:28 | the write address has bit 0 clear and carries the low 7 bits of the device address in bits 7..1 |
| I2C.ReadAddress | I2C_Functions.cpp:29 | the read address has bit 0 set and carries the low 7 bits of the device address in bits 7..1 |
| I2C.DeviceAddress | I2C_Functions.cpp:39 | `get_address` gives a 7-bit address whose write and read addresses are the stored byte with bit 0 cleared and set |
| I2C.AddressDerivation | I2C_Functions.cpp:27-40 | write address = 2a mod 256 (even); read address = write address or 1 = write address + 1; `get_address` gives back a mod 128, and a when a < 128 |
| I2C.WriteSeq | I2C_Functions.cpp:74-80 | the write sequence has n + 2 words `[wr, reg, data...]` and asks for no read |
| I2C.ReadSeq | I2C_Functions.cpp:116-121 | the read sequence has n + 4 words `[wr, reg, RESTART, rd]` followed by n READ markers, and asks for n bytes |
| I2C.Zeros | I2C_Functions.cpp:91 | the zero-initialised receive buffer |
| I2C.Assemble | I2C_Functions.cpp:108-110 | big-endian: byte 0 high, byte 1 low; little-endian: the reverse |
| I2C.SplitWord | I2C_Functions.cpp:57-66 | the two bytes `write2` sends, in sending order, reassemble to the value under the same byte order |
| I2C.SplitAssembled | I2C_Functions.cpp:100-113 | splitting an assembled word gives back the bytes it was assembled from, in either byte order |
| I2C.WriteOp | I2C_Functions.cpp:42-52 | status 0 or -1; a failed write changes no register; on an openable bus exactly `[wr, reg, data]` is logged; on a bus that cannot be opened nothing changes and -1 is returned |
| I2C.Write2Op | I2C_Functions.cpp:54-69 | status 0 or -1; on an openable bus two single-byte writes, to `reg` and then `reg + 1`, bytes in byte order, are logged; otherwise nothing changes and -1 is returned |
| I2C.WriteNOp | I2C_Functions.cpp:71-87 | status 0 or -1; a failed write changes no register; on an openable bus the one transaction `[wr, reg, data...]` is logged; otherwise nothing changes |
| I2C.ReadNOp | I2C_Functions.cpp:115-129 | n bytes come back; status 0 or -1; on failure the device is unchanged and the zeroed buffer is returned; on an openable bus exactly one read transaction of n bytes is logged |
| I2C.Read2Value | I2C_Functions.cpp:100-113 | the two received bytes as high and low byte in the configured byte order; 0 when the read fails |
| I2C.WriteNReadNRoundTrip | I2C_Functions.cpp:71-129 | `readn(r, n)` after `writen(r, data, n)` returns the bytes written, when the n registers lie below 0x7F |
| I2C.WriteEffect | I2C_Functions.cpp:42-52 | to the attached device: status 0, the register stored, exactly `[wr, reg, data]` logged; else -1 with no register changed, and nothing sent if the bus cannot be opened |
| I2C.WriteNEffect | I2C_Functions.cpp:71-87 | to the attached device: status 0, the bytes written from `reg` on, `[wr, reg, data...]` logged; error cases as for `write` |
| I2C.ReadEffect | I2C_Functions.cpp:115-129 | from the attached device: status 0, device unchanged, n registers from `reg` on returned; on failure the zeroed buffer comes back |
| I2C.WriteStatus | I2C_Functions.cpp:42-52 | `write` reports 0 exactly when the bus opens and the write address is the device's, -1 otherwise; the device keeps its address |
| I2C.WriteNStatus | I2C_Functions.cpp:71-87 | the same for `writen` |
| I2C.Write2StatusesAgree | I2C_Functions.cpp:54-69 | the status `write2` returns (its second write's) is always that of its first write: a failure of the simulated transport persists |
| I2C.Write2Read2RoundTrip | I2C_Functions.cpp:54-113 | `read2(r)` after `write2(r, v)` returns `v`, and `write2` reports 0, in either byte order |
| I2C.I2CFunctions.constructor | I2C_Functions.cpp:20-25 | bus number, addresses derived from the device address, byte order big-endian by default |
| I2C.I2CFunctions.SetAddress | I2C_Functions.cpp:27-36 | sets both bus addresses from the new device address; the device address then reads back mod 128 |
| I2C.I2CFunctions.GetAddress | I2C_Functions.cpp:38-40 | a 7-bit address whose write address is the stored one with bit 0 cleared |
| I2C.I2CFunctions.Write | I2C_Functions.cpp:42-52 | bus state and status are those of one send of `[wr, reg, data]` |
| I2C.I2CFunctions.Write2 | I2C_Functions.cpp:54-69 | two single-byte writes to `reg` and `reg + 1` in byte order; only the second status is returned |
| I2C.I2CFunctions.WriteN | I2C_Functions.cpp:71-87 | one send of `[wr, reg, data[0..n)]` |
| I2C.I2CFunctions.WriteSequence | I2C_Functions.cpp:74-80 | the array the loop fills is the write sequence of `data[0..n)` |
| I2C.I2CFunctions.Read | I2C_Functions.cpp:89-98 | one send of `[wr, reg, RESTART, rd, READ]`; the returned byte is the received one, or 0 |
| I2C.I2CFunctions.Read2 | I2C_Functions.cpp:100-113 | one two-byte read, assembled in the configured byte order |
| I2C.I2CFunctions.ReadN | I2C_Functions.cpp:115-129 | one n-byte read; the n received bytes are returned |
| I2C.I2CFunctions.ReadSequence | I2C_Functions.cpp:116-121 | the array the loop fills is the read sequence for n bytes |
| Scales.AccelScale | ICM20948.cpp:148-155 | 16384, 8192, 4096, 2048 LSB/g for the four codes, and -1 exactly for a non-code |
| Scales.GyroScaleTenths | ICM20948.cpp:205-212 | 131.0, 65.5, 32.8, 16.4 (in tenths) for the four codes, and -1.0 exactly for a non-code |
| Scales.AccelScaleCoversInt16 | ICM20948.h:62-65 | for every accelerometer code, resolution times range (2, 4, 8, 16 g) is 2^15 |
| Scales.DefaultScalesUnreachable | ICM20948.cpp:146-155 | the masked field always maps to a positive resolution, so the -1 default is never taken |
| Scales.SensWriteBackEffect | ICM20948.cpp:134-136 | for any code inside 0x06, the as-written write-back keeps every bit outside 0x06, and the new field is old field AND code |
| Scales.SensUpdateEffect | ICM20948.cpp:135 | for any code inside 0x06, the intended update keeps every bit outside 0x06 and stores exactly the code |
| Scales.SensWriteBackCannotRaise | ICM20948.cpp:135 | from the lowest code (2 g, 250 dps) a request for the highest (16 g, 2000 dps) stays at the lowest as written, while the intended update stores it |
| Scales.Int16Of | ICM20948.cpp:171 | the assembled sample lies in [-2^15, 2^15), and it is negative exactly when the high byte's top bit is set |
| Scales.Int16RoundTrip | ICM20948.cpp:171 | every signed 16-bit value survives storage as two bytes and reassembly |
| Scales.Int16BytesRoundTrip | ICM20948.cpp:171 | every byte pair is the storage of the value assembled from it |
| Scales.AxesOf | ICM20948.cpp:171-177 | three samples in the signed 16-bit range from the 6-byte block, high byte first per axis |
| Scales.AxesRoundTrip | ICM20948.cpp:168-177 | decoding a block and encoding samples are inverse in both directions |
| Sensor.SelectBankOp | ICM20948.cpp:23-25 | on an openable bus exactly the one write `[wr, 0x7F, code]` is logged; otherwise nothing changes |
| Sensor.ReadByte | I2C_Functions.cpp:89-98 | on an openable bus exactly one one-byte read is logged; otherwise nothing changes and 0 is returned |
| Sensor.WhoAmIScript | ICM20948.cpp:27-39 | the bus sees bank 0 selected, then the read of WHO_AM_I; on a bus that cannot be opened the result is false and nothing is sent |
| Sensor.DisableSleepScript | ICM20948.cpp:42-50 | result 0 or -1; the bus sees bank 0 selected, the read of PWR_MGMT_1 and one write to PWR_MGMT_1, in that order; -1 with nothing sent when the bus cannot be opened |
| Sensor.EnableSleepScript | ICM20948.cpp:52-59 | the same traffic and results as `disableSleep` |
| Sensor.GetStatusScript | ICM20948.cpp:61-96 | both bytes of the result are always equal; the bus sees only the reads of PWR_MGMT_1 and PWR_MGMT_2, no bank selection; 0 when the bus cannot be opened |
| Sensor.GetStatusCorrected | ICM20948.cpp:61-96 | the corrected status selects bank 0 first, then reads the two power registers; 0 when the bus cannot be opened |
| Sensor.SetAccSensScript | ICM20948.cpp:128-139 | an invalid code gives -1 with no bus access; a valid code gives 0, even when the bus cannot be opened; the bus sees the read of ACCEL_CONFIG_1 and one write to it, no bank selection |
| Sensor.SetGyroSensScript | ICM20948.cpp:185-196 | the same for GYRO_CONFIG_1 |
| Sensor.GetAccSensScript | ICM20948.cpp:141-158 | always a positive resolution; the bus sees bank 2 selected, then the read of ACCEL_CONFIG_1; on a bus that cannot be opened 16384 comes back from no read |
| Sensor.GetGyroSensScript | ICM20948.cpp:198-215 | the same for GYRO_CONFIG_1, with 131.0 (1310 tenths) when the bus cannot be opened |
| Sensor.DataScript | ICM20948.cpp:164-177 | nothing exactly for a negative scale, with no bus access; otherwise the scale is kept, and the bus sees bank 0 selected and one six-byte read from the first output register; all-zero samples when the bus cannot be opened |
| Sensor.GetAccDataScript | ICM20948.cpp:160-181 | the early return for a negative scale (ICM20948.cpp:165), written `NoReading`, is never taken; the bus sees bank 2, the configuration read, bank 0 and the six-byte read, in that order; zero samples with 16384 when the bus cannot be opened |
| Sensor.GetGyroDataScript | ICM20948.cpp:217-238 | the same for the gyroscope, with 1310 when the bus cannot be opened |
| Sensor.SetAccSensCorrected | ICM20948.cpp:128-139 | the corrected setter: an invalid code gives -1 with no access; a valid code gives 0, and the bus sees bank 2 selected, the read of ACCEL_CONFIG_1 and one write to it |
| Sensor.SetGyroSensCorrected | ICM20948.cpp:185-196 | the same for GYRO_CONFIG_1 |
| Sensor.SelectBankEffect | ICM20948.cpp:23-25 | the current bank becomes the one the code selects; no register changes; `[wr, 0x7F, code]` is logged |
| Sensor.ReadByteEffect | I2C_Functions.cpp:89-98 | a one-byte read returns what the register reads as and changes nothing on the device |
| Sensor.WhoAmIEffect | ICM20948.cpp:27-39 | true exactly when WHO_AM_I of bank 0 holds 0xEA; bank 0 is left selected; nothing else changes |
| Sensor.ReadModifyWriteIn | ICM20948.cpp:42-59 | select bank n, read, then write one register: only that register of bank n changes, and the write status is 0 |
| Sensor.DisableSleepEffect | ICM20948.cpp:42-50 | returns 0 and leaves bank 0 selected; PWR_MGMT_1 becomes `old & ~0x40 & ~0x07` (bits 3, 4, 5, 7 kept, 6 and 0..2 cleared); no other register changes |
| Sensor.EnableSleepEffect | ICM20948.cpp:52-59 | returns 0 and leaves bank 0 selected; PWR_MGMT_1 becomes `old or 0x40`, its other bits kept; no other register changes |
| Sensor.SleepWakeRestores | ICM20948.cpp:42-59 | `enableSleep` then `disableSleep` restores PWR_MGMT_1 when it was awake with clock-select 0 |
| Sensor.GetStatusEffect | ICM20948.cpp:61-96 | nothing changes on the device; both bytes of the result are register 0x06 of the current bank |
| Sensor.GetStatusIgnoresPwrMgmt2 | ICM20948.cpp:94 | two sensors that differ only in PWR_MGMT_2 give the same status |
| Sensor.GetStatusCorrectedEffect | ICM20948.cpp:61-96 | the corrected status has PWR_MGMT_1 of bank 0 in the high byte and PWR_MGMT_2 in the low byte, whatever bank was current |
| Sensor.ReadModifyWriteHere | ICM20948.cpp:134-136 | read then write one register in the current bank: its bank stays and only that register changes |
| Sensor.SetAccSensEffect | ICM20948.cpp:128-139 | an invalid code gives -1 with no bus access; a valid one gives 0, and ACCEL_CONFIG_1 of the current bank gets the write-back and nothing else changes |
| Sensor.SetGyroSensEffect | ICM20948.cpp:185-196 | the same for GYRO_CONFIG_1 |
| Sensor.GetAccSensEffect | ICM20948.cpp:141-158 | leaves bank 2 selected, changes no register, and returns the positive resolution of ACCEL_CONFIG_1's field in bank 2 |
| Sensor.GetGyroSensEffect | ICM20948.cpp:198-215 | the same for GYRO_CONFIG_1 |
| Sensor.Block | ICM20948.cpp:168-169 | the six bank-0 registers from the first output register on |
| Sensor.ReadBlock | ICM20948.cpp:168-169 | the 6-byte read in bank 0 returns the six output registers |
| Sensor.DataEffect | ICM20948.cpp:164-177 | with a positive scale: bank 0 ends selected, and the result is the samples of the output block with that scale |
| Sensor.GetAccDataEffect | ICM20948.cpp:160-181 | the early return for a negative scale, written `NoReading`, is never taken; the ACCEL_XOUT_H..ZOUT_L samples of bank 0, with the resolution from bank 2; bank 0 left selected |
| Sensor.GetGyroDataEffect | ICM20948.cpp:217-238 | the same for GYRO_XOUT_H..ZOUT_L and GYRO_CONFIG_1 |
| Sensor.SetAccSensMissesBank2 | ICM20948.cpp:128-139 | from bank 0, `setAccSens` reports success, but `getAccSens` then returns the old resolution |
| Sensor.SetGyroSensMissesBank2 | ICM20948.cpp:185-196 | from bank 0, `setGyroSens` never reaches GYRO_CONFIG_1 of bank 2 |
| Sensor.SetAccSensCannotRaise | ICM20948.cpp:134-136 | even in bank 2, a request for 16 g over 2 g reports 0, and 16384 is still read back instead of 2048 |
| Sensor.SetGyroSensCannotRaise | ICM20948.cpp:191-193 | even in bank 2, a request for 2000 dps over 250 dps reports 0, and 1310 is still read back instead of 164 |
| Sensor.SetAccSensCorrectedEffect | ICM20948.cpp:128-139 | corrected setter: invalid code gives -1 with no access; from any bank, `getAccSens` afterwards returns the requested code's resolution, other bits and registers kept |
| Sensor.SetGyroSensCorrectedEffect | ICM20948.cpp:185-196 | the same for the corrected gyroscope setter |
| Sensor.ICM20948.constructor | ICM20948.cpp:18-21 | accessor on the given bus for the given device, big-endian; the default address 0x69 gives bus addresses 0xD2/0xD3 |
| Sensor.ICM20948.SelectBankReg | ICM20948.cpp:23-25 | bus state as `SelectBankOp` |
| Sensor.ICM20948.WhoAmI | ICM20948.cpp:27-39 | bus state and result as `WhoAmIScript` |
| Sensor.ICM20948.DisableSleep | ICM20948.cpp:42-50 | bus state and result as `DisableSleepScript` |
| Sensor.ICM20948.EnableSleep | ICM20948.cpp:52-59 | bus state and result as `EnableSleepScript` |
| Sensor.ICM20948.GetStatus | ICM20948.cpp:61-96 | bus state and result as `GetStatusScript` |
| Sensor.ICM20948.SetAccSens | ICM20948.cpp:128-139 | bus state and result as `SetAccSensScript` |
| Sensor.ICM20948.GetAccSens | ICM20948.cpp:141-158 | bus state and result as `GetAccSensScript` |
| Sensor.ICM20948.GetAccData | ICM20948.cpp:160-181 | bus state and result as `GetAccDataScript` |
| Sensor.ICM20948.SetGyroSens | ICM20948.cpp:185-196 | bus state and result as `SetGyroSensScript` |
| Sensor.ICM20948.GetGyroSens | ICM20948.cpp:198-215 | bus state and result as `GetGyroSensScript` |
| Sensor.ICM20948.GetGyroData | ICM20948.cpp:217-238 | bus state and result as `GetGyroDataScript` |

## Left out

- The `lsquaredc` transport is foreign C code. It is replaced by the simulated bus and device described above; descriptor numbers, kernel errors and timing are not modelled.
- The device model covers only what the driver relies on: banked registers, bank select through 0x7F, auto-increment and address acknowledge. Registers that change by themselves (live samples, self-clearing reset bits) are not modelled.
- Floating point: the division of samples by the resolution is left out, and so are the float gyroscope resolutions. The data getters return the raw samples with the integer resolution, gyroscope resolutions in tenths. The early `{0, 0, 0}` return for a negative scale becomes `NoReading`; samples that are all zero (as on a bus that cannot be opened) come back as a `Reading` of zeros.
- `getTemperature` and `getIMUData` are left out: they consist of a floating-point formula and float assembly.
- Console output is left out: `printi`/`printe`, the `debug` checks, the `cout` calls in the constructor and `set_address`, `print_uint8`/`print_uint16`, and the messages `getStatus` prints for each bit.
- The default constructor `I2C_Functions()` (bus 0, address 0) is left out. It runs once, to initialise the driver's accessor member (ICM20948.h:86), because the driver's constructor (ICM20948.cpp:18-21) has no member initialiser. The driver's constructor then overwrites the member at once. The default constructor sends nothing on the bus, and its `set_address(0)` prints nothing. The model builds the driver's accessor directly with the bus and address given.
- `readn` returns a pointer into its own stack frame, and the driver calls it with a third (buffer) argument that the declaration does not have. The model returns an owned sequence of n bytes, and the driver uses that sequence.
- I2C.Write2Op, I2C.I2CFunctions.Write2, Sensor.DisableSleepScript, Sensor.EnableSleepScript, Sensor.SetAccSensScript, Sensor.SetGyroSensScript: transient transport failures are not modelled. The simulated transport fails only for a reason that persists (the bus cannot be opened, or nobody answers the address), so every transaction of one call succeeds or fails alike (I2C.Write2StatusesAgree). The model therefore cannot show `write2` dropping a failed first write after a successful second one, or a read-modify-write that stores a value computed from a failed read (0 for the setters, `0 & ...` for `disableSleep`).
- `writen` and `readn` take an `int n`. The model takes a natural number, so the negative lengths the source would accept are not modelled.
- Bits.BitVal, Bits.BitSet, Bits.BitClear, Bits.BitToggle: the macros are modelled on bytes and bits 0..7, the only operands the driver uses. `BIT_SET`/`BIT_CLEAR` return the new value, and the caller assigns it back as every use does.
- The wrapper in `imu.cpp`/`imu.h`, and the programs `main.cpp` and `main_plotter.cpp` (loops, file output, timing), are not part of this model.

## Findings

| source | as written | input that shows it | evidently intended | confidence | as-written member | corrected member |
|---|---|---|---|---|---|---|
| ICM20948.cpp:128-139 | `setAccSens` reads and writes ACCEL_CONFIG_1 (0x14) without selecting bank 2 | after `whoAmI`, bank 0 is current: the write goes to register 0x14 of bank 0, and `getAccSens` then returns the old resolution | select bank 2 before the read-modify-write | not executed | Sensor.SetAccSensMissesBank2 | Sensor.SetAccSensCorrectedEffect |
| ICM20948.cpp:185-196 | `setGyroSens` reads and writes GYRO_CONFIG_1 (0x01) without selecting bank 2 | after `whoAmI`, the write goes to register 0x01 of bank 0, and `getGyroSens` then returns the old resolution | select bank 2 before the read-modify-write | not executed | Sensor.SetGyroSensMissesBank2 | Sensor.SetGyroSensCorrectedEffect |
| ICM20948.cpp:135 | `config &= (config & ~SENSITIVITY_BM) \| scale` can only clear bits of the field | bank 2 selected, field 0b00 (2 g), `setAccSens(ACCEL_SENS_16G)`: returns 0, and `getAccSens` still returns 16384 instead of 2048 | `config = (config & ~SENSITIVITY_BM) \| scale`, as the comment says | not executed | Sensor.SetAccSensCannotRaise | Sensor.SetAccSensCorrectedEffect |
| ICM20948.cpp:192 | `config &= (config & ~SENSITIVITY_BM) \| scale` in `setGyroSens` can only clear bits of the field | bank 2 selected, field 0b00 (250 dps), `setGyroSens(GYRO_SENS_2000DPS)`: returns 0, and `getGyroSens` still returns 131.0 instead of 16.4 | `config = (config & ~SENSITIVITY_BM) \| scale`, as the comment says | not executed | Sensor.SetGyroSensCannotRaise | Sensor.SetGyroSensCorrectedEffect |
| ICM20948.cpp:94 | the combined status repeats PWR_MGMT_1 in both bytes; no bank is selected before the two reads | any two sensors differing only in PWR_MGMT_2 give the same status | bank 0 selected, then PWR_MGMT_1 in the high byte and PWR_MGMT_2 in the low byte | not executed | Sensor.GetStatusIgnoresPwrMgmt2 | Sensor.GetStatusCorrectedEffect |
