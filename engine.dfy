/** The bit-banged I2C master of bus_i2c.c. Each operation is a sequence of
    calls on the software port; each method promises the exact calls it
    appends to the port's trace (an event sequence of I2cFrames, whose
    properties are proved there), the pins it leaves, and how much of the
    peer queue it consumes. */
module I2cEngine {
  import opened I2cBits
  import opened I2cPort
  import opened I2cFrames

  /** `i2c_config`: both lines outputs, both driven high. */
  method Config(port: SwI2c)
    modifies port
    ensures port.input == old(port.input)
    ensures port.trace == old(port.trace) + ConfigEvents()
    ensures port.State() == Idle()
  {
    port.SetSdaMode(IoOut);
    port.SetSclMode(IoOut);
    port.SetSda(1);
    port.SetScl(1);
  }

  /** `i2c_strt`: SDA falls while SCL is high. */
  method Start(port: SwI2c)
    modifies port
    ensures port.input == old(port.input)
    ensures port.trace == old(port.trace) + StartEvents()
    ensures port.State() == PinState(IoOut, old(port.sclMode), 0, 1)
  {
    port.SetScl(0);
    port.SetSdaMode(IoOut);
    port.SetSda(1);
    port.SetScl(1);
    port.Holdtime();
    port.SetSda(0);
    port.Holdtime();
  }

  /** `i2c_stop`: SDA rises while SCL is high. */
  method Stop(port: SwI2c)
    modifies port
    ensures port.input == old(port.input)
    ensures port.trace == old(port.trace) + StopEvents()
    ensures port.State() == PinState(IoOut, old(port.sclMode), 1, 1)
  {
    port.SetScl(0);
    port.SetSdaMode(IoOut);
    port.SetSda(0);
    port.SetScl(1);
    port.Holdtime();
    port.SetSda(1);
    port.Holdtime();
  }

  /** `i2c_send_rsp` (internal to bus_i2c.c): the master's acknowledge bit,
      SDA low for ACK and high otherwise, on one clock pulse. */
  method SendRsp(port: SwI2c, ack: Rsp)
    modifies port
    ensures port.input == old(port.input)
    ensures port.trace == old(port.trace) + SendRspEvents(ack)
    ensures port.State() == PinState(IoOut, old(port.sclMode), RspCode(ack), 0)
  {
    port.SetScl(0);
    port.SetSdaMode(IoOut);
    if ack == ACK {
      port.SetSda(0);
    } else {
      port.SetSda(1);
    }
    port.SetScl(1);
    port.Holdtime();
    port.SetScl(0);
  }

  /** `i2c_recv_rsp` (internal to bus_i2c.c): releases SDA, raises SCL and
      returns the one value sampled, 0 for ACK and 1 for NACK. */
  method RecvRsp(port: SwI2c) returns (ret: Byte)
    modifies port
    ensures ret == Peer(old(port.input), 0) && port.input == Drop(old(port.input), 1)
    ensures port.trace == old(port.trace) + RecvRspEvents(ret)
    ensures port.State() == old(port.State()).(sdaMode := IoIn, scl := 0)
  {
    port.SetSdaMode(IoIn);
    port.SetScl(1);
    ret := port.GetSda();
    port.SetScl(0);
  }

  /** `i2c_wbyte`: shifts b out on SDA, most significant bit first, one
      clock pulse per bit, then samples the peer's acknowledge. */
  method WriteByte(port: SwI2c, b: Byte) returns (ret: Byte)
    modifies port
    ensures ret == Peer(old(port.input), 0) && port.input == Drop(old(port.input), 1)
    ensures port.trace == old(port.trace) + WriteByteEvents(b, ret)
    ensures port.State() == PinState(IoIn, old(port.sclMode), b % 2, 0)
  {
    port.SetScl(0);
    port.SetSdaMode(IoOut);
    ghost var bits := ToBits(b, 8);
    ghost var pre := old(port.trace) + [SetScl(0), SdaMode(IoOut)];
    var byte := b;
    var i := 0;
    while i < 8
      invariant 0 <= i <= 8
      invariant port.input == old(port.input)
      invariant byte == Shifted(b, i)
      invariant port.trace == pre + DataBits(bits[..i])
      invariant port.sdaMode == IoOut && port.scl == 0 && port.sclMode == old(port.sclMode)
      invariant i > 0 ==> port.sda == if Msb(Shifted(b, i - 1)) then 1 else 0
    {
      ShiftedMsb(b, i);
      WriteStep(pre, bits, i);
      ghost var t0 := port.trace;
      if Msb(byte) {
        port.SetSda(1);
      } else {
        port.SetSda(0);
      }
      byte := Shl(byte);
      port.SetScl(1);
      port.Holdtime();
      port.SetScl(0);
      assert port.trace == t0 + [SetSda(bits[i])] + [SetScl(1)] + [Hold] + [SetScl(0)];
      i := i + 1;
    }
    assert bits[..8] == bits;
    ShiftedMsb(b, 7);
    LastBitIsLsb(b);
    ret := RecvRsp(port);
  }

  /** `i2c_rbyte`: samples 8 bits on SDA, the first one becoming the most
      significant, then sends ACK or NACK. */
  method ReadByte(port: SwI2c, ack: Rsp) returns (rbyte: Byte)
    modifies port
    ensures rbyte == Value(Levels(Samples(old(port.input), 8)))
    ensures port.input == Drop(old(port.input), 8)
    ensures port.trace == old(port.trace) + ReadByteEvents(Samples(old(port.input), 8), ack)
    ensures port.State() == PinState(IoOut, old(port.sclMode), RspCode(ack), 0)
  {
    ghost var q := port.input;
    port.SetScl(0);
    port.SetSdaMode(IoIn);
    ghost var pre := old(port.trace) + [SetScl(0), SdaMode(IoIn)];
    var i := 0;
    rbyte := 0;
    while i < 8
      invariant 0 <= i <= 8
      invariant port.input == Drop(q, i)
      invariant port.trace == pre + ClockIn(Samples(q, i))
      invariant rbyte == Value(Levels(Samples(q, i)))
      invariant port.sdaMode == IoIn && port.sclMode == old(port.sclMode)
    {
      DropStep(q, i);
      ReadStep(pre, q, i);
      Accumulate(q, i, rbyte);
      port.SetScl(0);
      port.Holdtime();
      port.SetScl(1);
      rbyte := Shl(rbyte);
      var v := port.GetSda();
      if v != 0 {
        rbyte := OrLsb(rbyte);
      }
      i := i + 1;
    }
    port.SetScl(0);
    if ack == ACK {
      SendRsp(port, ACK);
    } else {
      SendRsp(port, NACK);
    }
  }
}
