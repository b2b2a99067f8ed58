# TLC59731 LED transmitter and STTS22H register layout

This project models two pieces of the firmware of the Elektor wearable badge.

**The TLC59731 driver** (`discovery/src/TLC59731.h`) bit-bangs one output pin to
talk to an RGB LED chip. Every routine is a fixed sequence of pin writes and
busy waits, so `TLC59731.Transmitter` keeps what happens on the pin as an
append-only `trace` of `High`, `Low` and `Delay(us)` events. Each C routine
becomes a method that extends the trace, and each method is specified by a
function of its inputs:

- `WriteData` is specified by `DataTrace`. It keeps the source's loop, with its
  `data <<= 1` shift, and is proved against that function.
- `SetLed` is specified by `LedTrace`.

The model also has a receiver side:

- `DecodeSlots` and `DecodeFrame` read the bits and the four bytes back off a
  trace.
- The lemmas prove that what the driver sends is decoded back exactly, and that
  nothing else decodes to it.
- They also give the number of High writes, the total waiting time and the level the line
  is left at for every routine.

**The STTS22H register layout** (`discovery/src/STTS22H/stts22h_reg.h`) covers:

- the I2C addresses, the device ID and the register map;
- the bit-field registers CTRL, STATUS and SOFTWARE_RESET, each as a record with
  an unpack function and a pack function on the byte;
- the code tables of the output-data-rate and SMBus-mode enumerations.

Bit-fields are taken to be allocated from the least significant bit up, in
declaration order. The `bitwise_t` overlay (bit0 … bit7) relies on that
allocation, and `Bytes.Bit(d, k)` is its bit `k`. As in C, packing keeps only
the low `width` bits of a value assigned to a field. The lemmas prove:

- pack/unpack round trips in both directions;
- that the fields partition the byte;
- that a read-modify-write of one CTRL field, or of one of the two writable
  SOFTWARE_RESET bits (sw_reset, low_odr_enable), reads back the value
  written, truncated to the field's width;
- that such a write changes no other field and no bit outside the field.

Bytes are `bv8` (`Bytes.uint8`). `Bytes.Bits` lists a byte's bits most
significant first, the order in which `TLC59731_writeData` sends them.

## Model

| member | source | states |
|---|---|---|
| Bytes.Bits | discovery/src/TLC59731.h:41-47 | a byte's eight bits in the order writeData sends them: element i is bit 7 - i |
| Bytes.BitsRoundTrip | discovery/src/TLC59731.h:40-49 | the byte is recovered from the bit sequence sent for it |
| Bytes.FromBitsRoundTrip | discovery/src/TLC59731.h:40-49 | every sequence of eight bits is the bit sequence of the byte built from it |
| TLC59731.Transmitter.constructor | discovery/src/TLC59731.h:7 | a transmitter drives the given pin and starts with an empty trace |
| TLC59731.Transmitter.DigitalWrite | discovery/src/TLC59731.h:9 | a pin write appends exactly one High or Low event and nothing else |
| TLC59731.Transmitter.DelayMicroseconds | discovery/src/TLC59731.h:10 | a busy wait appends exactly one Delay event of that length |
| TLC59731.Transmitter.WriteZero | discovery/src/TLC59731.h:7-15 | writeZero appends one "0" slot: High, DELAY, Low, DELAY, T_CYCLE_0 |
| TLC59731.Transmitter.WriteOne | discovery/src/TLC59731.h:17-28 | writeOne appends one "1" slot: two pulses, then the T_CYCLE_1 wait |
| TLC59731.Transmitter.EndOfSequence | discovery/src/TLC59731.h:30-33 | appends the 140-unit end-of-sequence wait and nothing else |
| TLC59731.Transmitter.GsDataLatchSequence | discovery/src/TLC59731.h:35-38 | appends the 280-unit latch wait; the appended part has no High write and lasts 280 units |
| TLC59731.Transmitter.WriteData | discovery/src/TLC59731.h:40-49 | the loop with the shift sends the slots of the byte's bits, most significant first: the trace grows by DataTrace(data) |
| TLC59731.Transmitter.SetLed | discovery/src/TLC59731.h:51-67 | setLed sends the eight explicit start-pattern bits, the three data bytes and the end-of-sequence wait: the trace grows by LedTrace(out0, out1, out2) |
| TLC59731.ShiftedLeft | discovery/src/TLC59731.h:47 | after i executions of `data <<= 1` on a byte, bit k of data is bit k - i of the byte first given, for every k from i to 7 |
| TLC59731.ShiftedLeftTopBit | discovery/src/TLC59731.h:42-47 | after i shifts, the `data & B10000000` test sees bit 7 - i of the original byte |
| TLC59731.ZeroSlotShape | discovery/src/TLC59731.h:3-15 | a "0" bit has one High write, waits 2·DELAY + T_CYCLE_0 = 6 units and leaves the line low |
| TLC59731.OneSlotShape | discovery/src/TLC59731.h:3-28 | a "1" bit has two High writes, waits 3·DELAY + T_CYCLE_1 = 4 units and leaves the line low |
| TLC59731.SlotsCosts | discovery/src/TLC59731.h:7-28 | any bit string costs one High write per bit plus one per "1", and 6 units per "0" plus 4 per "1" |
| TLC59731.SlotsEndLow | discovery/src/TLC59731.h:7-28 | any non-empty run of bits leaves the line low |
| TLC59731.SlotsWaits | discovery/src/TLC59731.h:3-28 | the bit routines wait only DELAY or T_CYCLE_0 units (T_CYCLE_1 equals DELAY) |
| TLC59731.DecodeSlotsTrace | discovery/src/TLC59731.h:7-28 | the receiver decodes the slots of any bit string back to that string |
| TLC59731.SlotsTraceOfDecode | discovery/src/TLC59731.h:7-28 | a trace that decodes to a bit string is exactly the slots of that string, so the slot encoding is unambiguous |
| TLC59731.FrameOfBits | discovery/src/TLC59731.h:51-67 | every 32-bit string is the bits of the frame built from its four bytes |
| TLC59731.FrameBitsInjective | discovery/src/TLC59731.h:51-67 | distinct (command, out0, out1, out2) frames send distinct bit strings |
| TLC59731.DecodeEncodeFrame | discovery/src/TLC59731.h:51-67 | decoding an encoded frame gives back the frame |
| TLC59731.EncodeDecodeFrame | discovery/src/TLC59731.h:51-67 | a trace that decodes to a frame is the encoding of that frame |
| TLC59731.DataTraceSlots | discovery/src/TLC59731.h:40-49 | writeData's trace decodes to eight bits, and bit i is bit 7 - i of the byte |
| TLC59731.DataTraceCosts | discovery/src/TLC59731.h:40-49 | a byte costs 8 + popcount High writes and 6·(8 - popcount) + 4·popcount units, and leaves the line low |
| TLC59731.StartPatternBits | discovery/src/TLC59731.h:52-60 | the explicit 0, 0, 1, 1, 1, 0, 1, 0 calls are the bits of 0x3A, four of them ones |
| TLC59731.StartPatternTrace | discovery/src/TLC59731.h:52-60 | the eight explicit bit calls emit exactly what writeData(0x3A) emits |
| TLC59731.StartPatternAfter | discovery/src/TLC59731.h:52-60 | appending the eight start-pattern slots one by one appends DataTrace(0x3A) |
| TLC59731.Example0xA5 | discovery/src/TLC59731.h:40-49 | the byte 0xA5 is sent as the slots 1, 0, 1, 0, 0, 1, 0, 1 |
| TLC59731.LedTraceDecodes | discovery/src/TLC59731.h:51-67 | setLed's trace is the frame (0x3A, out0, out1, out2) and decodes to exactly that frame |
| TLC59731.FrameBitsOnes | discovery/src/TLC59731.h:51-67 | the ones in a frame's bit string are the popcounts of its four bytes |
| TLC59731.FrameCosts | discovery/src/TLC59731.h:51-67 | a frame is 32 decodable slots with 32 + ones High writes and 6·zeros + 4·ones + 140 units of waiting, and leaves the line low |
| TLC59731.LedTraceCosts | discovery/src/TLC59731.h:51-67 | setLed costs 36 + popcounts High writes and the matching waiting time, and leaves the line low |
| TLC59731.LedTraceHasNoLatch | discovery/src/TLC59731.h:35-67 | setLed never waits the 280-unit latch time; latching is a separate call |
| STTS22H.Address | discovery/src/STTS22H/stts22h_reg.h:175-207 | each register's address lies in the map's range, 0x01-0x07 or 0x0C |
| STTS22H.RegisterAt | discovery/src/STTS22H/stts22h_reg.h:175-207 | an address maps to the register whose address it is, and to no register when the map has none there |
| STTS22H.AddressesDistinct | discovery/src/STTS22H/stts22h_reg.h:175-207 | the register addresses are pairwise distinct, and looking one up finds its register |
| STTS22H.CtrlLayoutLsbFirst | discovery/src/STTS22H/stts22h_reg.h:187-195 | each CTRL field starts where the fields declared before it end, and the widths sum to 8 |
| STTS22H.CtrlMaskLayout | discovery/src/STTS22H/stts22h_reg.h:187-195 | each field's mask covers exactly bits offset … offset + width - 1 |
| STTS22H.CtrlMasksPartition | discovery/src/STTS22H/stts22h_reg.h:187-195 | the CTRL fields are pairwise disjoint and cover the whole byte |
| STTS22H.CtrlLimitWidth | discovery/src/STTS22H/stts22h_reg.h:187-195 | each field's limit is 2^width - 1 for its declared width |
| STTS22H.CtrlWellFormedLimits | discovery/src/STTS22H/stts22h_reg.h:187-195 | a record is well formed if and only if every field is within its limit |
| STTS22H.CtrlTruncateSet | discovery/src/STTS22H/stts22h_reg.h:187-195 | assigning one field of an already truncated record truncates only the value assigned |
| STTS22H.UnpackCtrl | discovery/src/STTS22H/stts22h_reg.h:229-237 | the `ctrl` view of a byte has every field within its declared width |
| STTS22H.PackCtrl | discovery/src/STTS22H/stts22h_reg.h:229-237 | the union's `byte` after writing `ctrl` reads back, through `ctrl`, as each field truncated to its width |
| STTS22H.PackCtrlLayout | discovery/src/STTS22H/stts22h_reg.h:187-195 | in the packed byte, each field's mask holds the field's value truncated to its width, shifted to its offset |
| STTS22H.UnpackCtrlLayout | discovery/src/STTS22H/stts22h_reg.h:187-195 | a field read from a byte depends only on the bits under that field's mask |
| STTS22H.CtrlPackUnpack | discovery/src/STTS22H/stts22h_reg.h:229-237 | writing back the `ctrl` view of a byte gives the same byte |
| STTS22H.CtrlUnpackPack | discovery/src/STTS22H/stts22h_reg.h:229-237 | a record survives packing and unpacking if and only if every field fits its width |
| STTS22H.UpdateCtrl | discovery/src/STTS22H/stts22h_reg.h:229-237 | a read-modify-write of field f through the union reads back as the old record with f set to the value truncated to its width |
| STTS22H.PackCtrlSetDiff | discovery/src/STTS22H/stts22h_reg.h:187-195 | two records that differ only in one field pack to bytes that differ only under that field's mask |
| STTS22H.UpdateCtrlChangesOnlyField | discovery/src/STTS22H/stts22h_reg.h:187-195 | a read-modify-write of one field changes no bit outside the field's mask |
| STTS22H.UpdateCtrlKeepsOtherBits | discovery/src/STTS22H/stts22h_reg.h:187-195 | after a read-modify-write of one field, the byte equals the old byte outside the field's mask |
| STTS22H.UpdateCtrlReadsBack | discovery/src/STTS22H/stts22h_reg.h:187-195 | the field written reads back as the value written, truncated to its width |
| STTS22H.UpdateCtrlKeepsOtherFields | discovery/src/STTS22H/stts22h_reg.h:187-195 | every other field reads back unchanged |
| STTS22H.UpdateCtrlFrame | discovery/src/STTS22H/stts22h_reg.h:187-195 | every bit position outside the field keeps its value |
| STTS22H.UnpackStatus | discovery/src/STTS22H/stts22h_reg.h:197-203 | busy, over_thh and under_thl are bits 0, 1 and 2 of STATUS, and every field fits its width |
| STTS22H.PackStatus | discovery/src/STTS22H/stts22h_reg.h:229-237 | the union's `byte` after writing `status` reads back as each field truncated to its width |
| STTS22H.StatusRoundTrip | discovery/src/STTS22H/stts22h_reg.h:197-203 | pack∘unpack is the identity on bytes; unpack∘pack is the identity exactly on well-formed records |
| STTS22H.StatusFlagsIgnoreUnusedBits | discovery/src/STTS22H/stts22h_reg.h:197-203 | the three flags depend on bits 0-2 only |
| STTS22H.UnpackSoftwareReset | discovery/src/STTS22H/stts22h_reg.h:207-214 | sw_reset is bit 1, low_odr_enable bit 6, not_used_02 bits 2-5, and the unused bits 0 and 7 |
| STTS22H.PackSoftwareReset | discovery/src/STTS22H/stts22h_reg.h:229-237 | the union's `byte` after writing `software_reset` reads back as each field truncated to its width |
| STTS22H.SoftwareResetRoundTrip | discovery/src/STTS22H/stts22h_reg.h:207-214 | pack∘unpack is the identity on bytes; unpack∘pack is the identity exactly on well-formed records |
| STTS22H.UpdateSoftwareReset | discovery/src/STTS22H/stts22h_reg.h:207-214 | a read-modify-write of sw_reset or low_odr_enable through the union reads that field back as the low bit of the value written |
| STTS22H.UpdateSoftwareResetKeepsOtherBits | discovery/src/STTS22H/stts22h_reg.h:207-214 | after that write, the byte equals the old byte outside the field's own bit (bit 1 for sw_reset, bit 6 for low_odr_enable) |
| STTS22H.UpdateSoftwareResetKeepsOtherFields | discovery/src/STTS22H/stts22h_reg.h:207-214 | the other writable bit and the three not_used fields read back unchanged |
| STTS22H.OdrCode | discovery/src/STTS22H/stts22h_reg.h:251-259 | the codes use only bits 0-2 and 4-5; at most one of bits 0-2 is set; only codes with bit 1 set use bits 4-5 |
| STTS22H.OdrOfCode | discovery/src/STTS22H/stts22h_reg.h:251-259 | a code decodes to the data rate with that code, and to none when no rate has that code |
| STTS22H.OdrRoundTrip | discovery/src/STTS22H/stts22h_reg.h:251-259 | the seven data-rate codes are pairwise distinct, and decoding a rate's code gives the rate |
| STTS22H.SmbusCode | discovery/src/STTS22H/stts22h_reg.h:279-282 | each code fits the one-bit `time_out_dis` field, and the code is 1 exactly for TIMEOUT_DISABLE |
| STTS22H.SmbusModeOfCtrl | discovery/src/STTS22H/stts22h_reg.h:279-282 | the SMBus mode read from CTRL is the mode whose code is the `time_out_dis` bit |
| STTS22H.SmbusModeOneToOne | discovery/src/STTS22H/stts22h_reg.h:279-286 | setting a mode's code in `time_out_dis` by read-modify-write and reading it back gives that mode |

## Left out

- Real time is not modelled. `Delay(us)` records the requested wait only. The time taken by `digitalWrite` itself, interrupts and the chip's timing tolerances are outside the model.
- The pin number is kept in the `pin` field but plays no part in the trace. Every routine writes to the transmitter's one pin.
- Slot length: a "0" bit waits 6 units and a "1" bit 4 units, so the bit cycle is not of constant length. The model states the lengths the code gives (`ZeroSlotShape`, `OneSlotShape`) and does not claim equal cycles.
- The receiver side (`DecodeSlots`, `DecodeFrame`) models an ideal chip that reads the slots exactly as sent. The TLC59731's own sampling window is not modelled.
- Register access (`stts22h_read_reg` and `stts22h_write_reg`), the transport function pointers and `stts22h_ctx_t` (stts22h_reg.h:111-120, 244-247) are I/O through callbacks and are not modelled. The byte read or written is a parameter.
- The bodies of the set/get API functions (stts22h_reg.h:260-302) are not in the header. Their read-modify-write of one CTRL field is modelled generically as `UpdateCtrl`, with its frame lemmas. How each function splits its argument across fields is not modelled. In particular, the split of a data-rate code across CTRL and SOFTWARE_RESET fields is not modelled: only the code table is.
- `stts22h_dev_status_t` and `stts22h_temp_trlhd_src_t` (stts22h_reg.h:274-277, 297-300) are output structures filled by those get functions, not register layouts. They are not modelled.
- `stts22h_from_lsb_to_celsius` (stts22h_reg.h:249) is floating point and only declared. It is not modelled.
- The whole-byte registers (temperature limits and outputs) need no layout beyond their addresses. Their structs (`stts22h_temp_h_limit_t`, `stts22h_temp_l_limit_t`) are not modelled separately.
- The axis unions, `ucf_line_t` and `PROPERTY_ENABLE`/`PROPERTY_DISABLE` are shared types that no modelled routine uses. They are not modelled.
- The I2C addresses and the device ID are modelled as constants only. No bus transaction is modelled.
- Bit-field allocation order is implementation-defined in C. The model fixes it as least significant bit first, the order the `bitwise_t` overlay assumes.
- The SMBus timeout-disable flag is `time_out_dis` in CTRL (bit 1), which is where the header declares it. The model places it there and in no other register.
