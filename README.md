# Bit-banged I2C master, modelled in Dafny

This project models the software I2C master of `bus_i2c.c` / `bus_i2c.h`
(Driver_bus_i2c). The engine knows nothing about hardware. It talks to the
bus only through the six-callback line driver `sw_i2c_t`: hold, SDA
direction, SCL direction, SCL level, SDA level, and read SDA. Its seven
operations are configure, START, STOP, the two acknowledge helpers, write
one byte and read one byte. Each is a fixed sequence of driver calls, plus
an 8-step loop for the two byte operations.

The model has four modules:

- `I2cBits` (`bits.dfy`): the `uint8_t` arithmetic the loops perform.
  - A byte is an `int` in 0..255.
  - `byte & 0x80` is `Msb`, `<<= 1` is `Shl` (the top bit falls off), `|= 0x01` is `OrLsb`.
  - A non-zero `get_sda()` result counts as true (`LevelOf`).
  - The MSB-first byte format: `ToBits(x, 8)` gives the 8 levels on the wire and `Value` reads levels back as a number. Both round trips are proved.
- `I2cPort` (`port.dfy`): the header's types and the line driver.
  - `Rsp` stands for `I2C_RSP`, with codes ACK = 0 and NACK = 1.
  - `IoMode` has two directions.
  - The class `SwI2c` stands for the `sw_i2c_t` table.
    - Its fields are the direction and level of both lines.
    - It keeps an append-only `trace` of every call made on it.
    - An `input` queue holds the values `get_sda` returns, standing in for whatever the peer drives.
  - Each of the six methods appends its own event to the trace. It changes exactly the pin field it names and nothing else; `GetSda` also removes the head of `input`.
  - `SwI2c.Record` is a helper the six methods share. It has no counterpart in `sw_i2c_t`.
  - `Step` / `Run` give the same effect on a pure `PinState`.
- `I2cFrames` (`frames.dfy`): the exact event sequence each engine operation produces, and what is proved about those sequences:
  - the final pins (by replaying the events with `Run`);
  - the levels driven onto SDA, the values sampled, and the number of clock pulses;
  - the START and STOP conditions;
  - two bus rules:
    - `Direction`: `set_sda` only while SDA is an output; `get_sda` only while it is an input.
    - `DataValidity`: `set_sda` only while SCL is low; `get_sda` only while SCL is high.
- `I2cEngine` (`engine.dfy`): the seven functions of `bus_i2c.c` as methods on a `SwI2c` port.
  - Each method makes the same calls in the same order as the C code, with the same branches and 8-iteration loops.
  - Each proves:
    - the events it appends to the trace (an `I2cFrames` sequence);
    - the pins it leaves;
    - how much of the input queue it consumes;
    - what it returns.
  - `WriteByte` and `ReadByte` prove this with loop invariants over the trace, and the shifted byte or the accumulated value.

A method's final pins agree with the replay of its trace. The method states
its new `State()`, and the frame lemma of the same operation proves that
`Run` over the method's events from the old pins gives the same state.

Facts about `bus_i2c.c` that the model follows:

- `i2c_recv_rsp` drives SCL high, samples and drives SCL low, with no hold and no leading SCL-low.
- Each bit of `i2c_wbyte` is `set_sda`, `set_scl(1)`, one hold, `set_scl(0)`, with no setup holds.
- `i2c_send_rsp` holds once.
- `holdtime` takes no multiplier.
- `i2c_strt` and `i2c_stop` never touch the SCL direction. The bus is therefore idle after START then STOP exactly when SCL was already an output (`StartThenStop`).
- The code has no bus-recovery (nine-clock reset) routine and no address-phase helper.
- `i2c_config` drives SDA high without first driving SCL low. It keeps the data-validity rule exactly when SCL is already low (`ConfigDataValidity`): from the idle bus it does not. Called right after a START, its `set_sda(1)` is a STOP condition (`ConfigAfterStartIsStop`). Every other operation keeps the rule, apart from the START and STOP edges.

## Model

| member | source | states |
|---|---|---|
| I2cEngine.Config | bus_i2c.c:29-36 | appends exactly SDA→output, SCL→output, SDA=1, SCL=1; leaves the bus idle; consumes no input |
| I2cEngine.Start | bus_i2c.c:38-53 | appends the START sequence (SCL low, SDA output, SDA 1, SCL 1, hold, SDA 0, hold); ends with SDA an output, SDA low, SCL high, SCL direction untouched |
| I2cEngine.Stop | bus_i2c.c:55-70 | appends the STOP sequence (SCL low, SDA output, SDA 0, SCL 1, hold, SDA 1, hold); ends with both lines high and SDA an output |
| I2cEngine.SendRsp | bus_i2c.c:76-101 | appends SCL low, SDA output, SDA 0 for ACK and 1 for NACK, SCL high, hold, SCL low; SDA ends at the enum's code |
| I2cEngine.RecvRsp | bus_i2c.c:103-124 | returns the one value read from the peer queue, which advances by one; appends SDA input, SCL high, that sample, SCL low |
| I2cEngine.WriteByte | bus_i2c.c:126-165 | appends SCL low, SDA output, one 4-call slot per bit of `b` most significant first, then the acknowledge read; returns the acknowledge sample unmodified; ends with SDA an input latched at `b`'s last bit and SCL low |
| I2cEngine.ReadByte | bus_i2c.c:167-214 | returns the value of the first 8 samples, first sample most significant; consumes exactly 8 queue values; appends their 8 sampling slots, SCL low and the acknowledge send; ends with SDA an output at the acknowledge code and SCL low |
| I2cPort.SwI2c.constructor | bus_i2c.h:44-52 | a port with the given pins, an empty trace and the given peer queue |
| I2cPort.SwI2c.Holdtime | bus_i2c.h:46 | appends `Hold`; no pin changes |
| I2cPort.SwI2c.SetSdaMode | bus_i2c.h:47 | appends `SdaMode(m)`; only the SDA direction changes |
| I2cPort.SwI2c.SetSclMode | bus_i2c.h:48 | appends `SclMode(m)`; only the SCL direction changes |
| I2cPort.SwI2c.SetScl | bus_i2c.h:49 | appends `SetScl(l)`; only the SCL level changes |
| I2cPort.SwI2c.SetSda | bus_i2c.h:50 | appends `SetSda(l)`; only the SDA level changes |
| I2cPort.SwI2c.GetSda | bus_i2c.h:51 | returns the queue's head (1 once the queue is empty), removes it, and records it; no pin changes |
| I2cPort.RspCode | bus_i2c.h:35-39 | the code of a response is 0 exactly for ACK |
| I2cPort.RspOf | bus_i2c.h:35-39 | raw value 0 reads as ACK, 1 as NACK, anything above 1 as no enum value; each in both directions |
| I2cPort.RspRoundTrip | bus_i2c.h:35-39 | reading back a response's code gives the response |
| I2cPort.DropStep | bus_i2c.h:51 | after n reads, the next read returns queue value n and leaves what n+1 reads leave |
| I2cPort.SamplesAt | bus_i2c.h:51 | the k-th of the first n reads returns queue value k |
| I2cBits.ValueOfToBits | bus_i2c.c:138-159 | decoding the n levels of x gives back x, for every x below 2^n |
| I2cBits.ToBitsOfValue | bus_i2c.c:179-196 | encoding the value of any levels in as many bits gives back the levels |
| I2cBits.ToBitsAt | bus_i2c.c:141-149 | level k of the n-bit form of x is bit n-1-k of x |
| I2cBits.ValueSnoc | bus_i2c.c:191-195 | appending a level doubles the value and adds the level |
| I2cBits.ValueBound | bus_i2c.c:179-196 | n levels have a value below 2^n |
| I2cBits.LevelsAt | bus_i2c.c:192 | the k-th level of read-back values is the k-th value taken as a C truth value |
| I2cBits.MsbIsFirstBit | bus_i2c.c:141 | `x & 0x80` is set exactly when the first level of x's 8-bit form is 1 |
| I2cBits.ShlDropsFirstBit | bus_i2c.c:149 | `x <<= 1` drops the first level of x's 8-bit form and appends a 0 |
| I2cBits.ShiftedBits | bus_i2c.c:138-149 | after i shifts, the 8-bit form of the byte is x's levels from i on, followed by i zeros |
| I2cBits.ShiftedMsb | bus_i2c.c:141-149 | the top bit tested in iteration i of the write loop is level i of x |
| I2cBits.ShlSmall | bus_i2c.c:191-194 | below 128, `<<= 1` doubles and OR-ing in 0x01 then adds one: the accumulation never overflows |
| I2cFrames.ConfigIdle | bus_i2c.c:29-36 | from any pins configure leaves both lines outputs and high; configuring twice leaves the same pins as once |
| I2cFrames.ConfigDirection | bus_i2c.c:32-34 | configure drives SDA only after making it an output |
| I2cFrames.ConfigDataValidity | bus_i2c.c:32-35 | configure drives SDA only while SCL is low if and only if it finds SCL low; it never drives SCL low first |
| I2cFrames.ConfigAfterStartIsStop | bus_i2c.c:32-35 | configure called right after START raises SDA while SCL is high, a STOP condition outside i2c_stop |
| I2cFrames.StartCondition | bus_i2c.c:38-53 | from any pins: both rules hold up to the edge; the edge is SDA falling while SCL is high; direction holds throughout; START ends at SDA low, SCL high, SDA an output |
| I2cFrames.StopCondition | bus_i2c.c:55-70 | from any pins: both rules up to the edge; the edge is SDA rising while SCL is high; direction throughout; STOP ends at both lines high, SDA an output |
| I2cFrames.StartThenStop | bus_i2c.c:38-70 | START then STOP leaves the bus idle if and only if SCL was an output |
| I2cFrames.SendRspFrame | bus_i2c.c:76-101 | SDA is driven once, to 0 for ACK and 1 for NACK, nothing is sampled, one clock pulse, both rules, ends with SCL low |
| I2cFrames.RecvRspFrame | bus_i2c.c:103-124 | exactly one sample, taken with SDA an input and SCL high, nothing driven, one clock pulse, ends with SCL low |
| I2cFrames.BitSlotFrame | bus_i2c.c:141-158 | one write-loop iteration from SCL low drives one level, then one pulse, keeping both rules |
| I2cFrames.DataBitsAt | bus_i2c.c:138-159 | slot k of the data phase is exactly SDA=bit k, SCL 1, hold, SCL 0 |
| I2cFrames.DataBitsViews | bus_i2c.c:138-159 | the data phase's SDA levels are exactly the given levels, with no sample and one clock pulse per level |
| I2cFrames.DataBitsFrame | bus_i2c.c:138-159 | the data phase drives exactly the given levels, one clock pulse each, samples nothing, keeps both rules |
| I2cFrames.WriteByteFrame | bus_i2c.c:126-165 | SDA carries exactly the 8-bit form of b; the only sample is the acknowledge; 9 clock pulses; both rules from any pins; final pins |
| I2cFrames.WriteByteMsbFirst | bus_i2c.c:138-159 | exactly 8 levels are driven, the k-th is bit 7-k of b, and they read back as b |
| I2cFrames.WriteByteSlot | bus_i2c.c:138-159 | after the two leading calls, events 4k..4k+3 are SDA=bit 7-k of b, SCL 1, hold, SCL 0 |
| I2cFrames.SampleSlotFrame | bus_i2c.c:181-195 | one read-loop iteration with SDA an input samples once, while SCL is high, on one pulse |
| I2cFrames.ClockInViews | bus_i2c.c:179-196 | the read loop's samples are exactly the values get_sda returned, with no SDA drive and one clock pulse per sample |
| I2cFrames.ClockInFrame | bus_i2c.c:179-196 | the read loop samples exactly the values get_sda returned, one pulse each, drives nothing, keeps both rules |
| I2cFrames.Accumulate | bus_i2c.c:191-195 | one `rbyte <<= 1` followed by OR-ing 0x01 into rbyte for a non-zero sample turns the value of the first i samples into the value of the first i+1 |
| I2cFrames.ReadByteFrame | bus_i2c.c:167-214 | the samples are exactly the values get_sda returned; SDA is driven once, to the acknowledge code; one pulse per sample plus one; both rules; final pins |
| I2cFrames.ReadByteMsbFirst | bus_i2c.c:179-196 | the byte read is below 256 and its bit 7-k is the k-th sample's truth value |
| I2cFrames.OpDirection | bus_i2c.c:29-214 | every public operation, from any pins, drives SDA only as an output and samples it only as an input |
| I2cFrames.SessionDirection | bus_i2c.c:29-214 | any sequence of public operations keeps the direction rule |

## Left out

- `hw_i2c_t` (the hardware-peripheral callback table) has no logic in this code and is not modelled.
- Timing: `holdtime` is a `Hold` event with no duration.
- `IO_MODE` comes from `hwtype.h`, which is not part of this model; it is reduced to two directions.
- Electrical behaviour is not modelled: open drain, a peer pulling SDA, clock stretching. The peer is only the queue `get_sda` reads, and an empty queue reads 1, as a released line does.
- `get_sda`, `holdtime` and the other callbacks are foreign code; the port class stands for them, and I/O is the trace plus the input queue.
- Concurrency and exclusive ownership of the port handle are not modelled; the engine is sequential.
- `i2c_send_rsp` and `i2c_recv_rsp` are `static` in C. In the model, `I2cEngine.SendRsp` and `I2cEngine.RecvRsp` are public, because these modules have no export sets. `SwI2c.Record` is also public; it is a helper shared by the six port methods, with no counterpart in the C. What the model does show: the `Event` datatype has exactly six constructors, one per `sw_i2c_t` operation, and `Op` lists exactly the five public functions.
- I2cEngine.ReadByte: the C `I2C_RSP ack` parameter can hold any integer, and every value other than ACK sends NACK. The model's `Rsp` has only the two enum values.
- Bus recovery, address-phase helpers and multi-byte transactions are not in this code, so they are not modelled.
