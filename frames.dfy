/** The port calls each operation of bus_i2c.c makes, as event sequences,
    and the properties of those sequences: the final pin state, the two bus
    rules the engine keeps (data direction and data validity), the START and
    STOP conditions, and the MSB-first byte format with its ninth
    acknowledge clock (UM10204, sections 3.1.3 to 3.1.6). */
module I2cFrames {
  import opened I2cBits
  import opened I2cPort

  // ---------------------------------------------------------------------
  // The event sequence of each operation

  /** `i2c_config`. */
  function ConfigEvents(): seq<Event> {
    [SdaMode(IoOut), SclMode(IoOut), SetSda(1), SetScl(1)]
  }

  /** `i2c_strt`. */
  function StartEvents(): seq<Event> {
    StartSetup() + [SetSda(0), Hold]
  }

  /** `i2c_strt` up to the falling edge of SDA. */
  function StartSetup(): seq<Event> {
    [SetScl(0), SdaMode(IoOut), SetSda(1), SetScl(1), Hold]
  }

  /** `i2c_stop`. */
  function StopEvents(): seq<Event> {
    StopSetup() + [SetSda(1), Hold]
  }

  /** `i2c_stop` up to the rising edge of SDA. */
  function StopSetup(): seq<Event> {
    [SetScl(0), SdaMode(IoOut), SetSda(0), SetScl(1), Hold]
  }

  /** `i2c_send_rsp(ack)`. */
  function SendRspEvents(ack: Rsp): seq<Event> {
    [SetScl(0), SdaMode(IoOut), SetSda(if ack == ACK then 0 else 1), SetScl(1), Hold, SetScl(0)]
  }

  /** `i2c_recv_rsp`, given the value get_sda returns. */
  function RecvRspEvents(v: Byte): seq<Event> {
    [SdaMode(IoIn), SetScl(1), GetSda(v), SetScl(0)]
  }

  /** One iteration of the `i2c_wbyte` loop, sending level l. */
  function BitSlot(l: Level): seq<Event> {
    [SetSda(l), SetScl(1), Hold, SetScl(0)]
  }

  /** The `i2c_wbyte` loop sending the given levels. */
  function DataBits(bits: seq<Level>): (es: seq<Event>)
    ensures |es| == 4 * |bits|
  {
    if bits == [] then [] else BitSlot(bits[0]) + DataBits(bits[1..])
  }

  /** `i2c_wbyte(b)`, given the value get_sda returns for the acknowledge. */
  function WriteByteEvents(b: Byte, v: Byte): seq<Event> {
    [SetScl(0), SdaMode(IoOut)] + DataBits(ToBits(b, 8)) + RecvRspEvents(v)
  }

  /** One iteration of the `i2c_rbyte` loop, get_sda returning v. */
  function SampleSlot(v: Byte): seq<Event> {
    [SetScl(0), Hold, SetScl(1), GetSda(v)]
  }

  /** The `i2c_rbyte` loop, get_sda returning the values vs. */
  function ClockIn(vs: seq<Byte>): (es: seq<Event>)
    ensures |es| == 4 * |vs|
  {
    if vs == [] then [] else SampleSlot(vs[0]) + ClockIn(vs[1..])
  }

  /** `i2c_rbyte(ack)`, get_sda returning the values vs. */
  function ReadByteEvents(vs: seq<Byte>, ack: Rsp): seq<Event> {
    [SetScl(0), SdaMode(IoIn)] + ClockIn(vs) + [SetScl(0)] + SendRspEvents(ack)
  }

  // ---------------------------------------------------------------------
  // Views of a trace

  /** The levels driven onto SDA, in order. */
  function SdaLevels(es: seq<Event>): seq<Level> {
    if es == [] then []
    else (if es[0].SetSda? then [es[0].level] else []) + SdaLevels(es[1..])
  }

  /** The values sampled from SDA, in order. */
  function Sampled(es: seq<Event>): seq<Byte> {
    if es == [] then []
    else (if es[0].GetSda? then [es[0].sample] else []) + Sampled(es[1..])
  }

  /** The number of times SCL is driven high: the clock pulses. */
  function ClockPulses(es: seq<Event>): nat {
    if es == [] then 0
    else (if es[0] == SetScl(1) then 1 else 0) + ClockPulses(es[1..])
  }

  // ---------------------------------------------------------------------
  // Bus rules

  datatype Rule =
    /** SDA is driven only as an output and sampled only as an input. */
    | Direction
    /** SDA is driven only while SCL is low and sampled only while SCL is
        high (UM10204 section 3.1.3). */
    | DataValidity

  predicate Permits(rule: Rule, st: PinState, e: Event) {
    match rule
    case Direction =>
      (e.SetSda? ==> st.sdaMode == IoOut) && (e.GetSda? ==> st.sdaMode == IoIn)
    case DataValidity =>
      (e.SetSda? ==> st.scl == 0) && (e.GetSda? ==> st.scl == 1)
  }

  /** Every call of es, made from the pins it finds, keeps the rule. */
  predicate Obeys(rule: Rule, st: PinState, es: seq<Event>)
    decreases |es|
  {
    es == [] || (Permits(rule, st, es[0]) && Obeys(rule, Step(st, es[0]), es[1..]))
  }

  /** A START condition: SDA falls while SCL is high (UM10204 section 3.1.4). */
  predicate IsStart(st: PinState, e: Event) {
    e == SetSda(0) && st.sda == 1 && st.scl == 1
  }

  /** A STOP condition: SDA rises while SCL is high (UM10204 section 3.1.4). */
  predicate IsStop(st: PinState, e: Event) {
    e == SetSda(1) && st.sda == 0 && st.scl == 1
  }

  // ---------------------------------------------------------------------
  // Lemmas about traces in general

  lemma {:induction false} ObeysAppend(rule: Rule, st: PinState, a: seq<Event>, b: seq<Event>)
    ensures Obeys(rule, st, a + b) <==> Obeys(rule, st, a) && Obeys(rule, Run(st, a), b)
    decreases |a|
  {
    if a == [] {
      assert a + b == b;
    } else {
      assert (a + b)[0] == a[0] && (a + b)[1..] == a[1..] + b;
      ObeysAppend(rule, Step(st, a[0]), a[1..], b);
    }
  }

  lemma {:induction false} SdaLevelsAppend(a: seq<Event>, b: seq<Event>)
    ensures SdaLevels(a + b) == SdaLevels(a) + SdaLevels(b)
  {
    if a == [] {
      assert a + b == b;
    } else {
      assert (a + b)[0] == a[0] && (a + b)[1..] == a[1..] + b;
      SdaLevelsAppend(a[1..], b);
    }
  }

  lemma {:induction false} SampledAppend(a: seq<Event>, b: seq<Event>)
    ensures Sampled(a + b) == Sampled(a) + Sampled(b)
  {
    if a == [] {
      assert a + b == b;
    } else {
      assert (a + b)[0] == a[0] && (a + b)[1..] == a[1..] + b;
      SampledAppend(a[1..], b);
    }
  }

  lemma {:induction false} ClockPulsesAppend(a: seq<Event>, b: seq<Event>)
    ensures ClockPulses(a + b) == ClockPulses(a) + ClockPulses(b)
  {
    if a == [] {
      assert a + b == b;
    } else {
      assert (a + b)[0] == a[0] && (a + b)[1..] == a[1..] + b;
      ClockPulsesAppend(a[1..], b);
    }
  }

  /** Every view of a trace, one call at a time. */
  lemma ViewsOfCons(st: PinState, e: Event, rest: seq<Event>)
    ensures Run(st, [e] + rest) == Run(Step(st, e), rest)
    ensures SdaLevels([e] + rest) == (if e.SetSda? then [e.level] else []) + SdaLevels(rest)
    ensures Sampled([e] + rest) == (if e.GetSda? then [e.sample] else []) + Sampled(rest)
    ensures ClockPulses([e] + rest) == (if e == SetScl(1) then 1 else 0) + ClockPulses(rest)
    ensures Obeys(Direction, st, [e] + rest)
        <==> Permits(Direction, st, e) && Obeys(Direction, Step(st, e), rest)
    ensures Obeys(DataValidity, st, [e] + rest)
        <==> Permits(DataValidity, st, e) && Obeys(DataValidity, Step(st, e), rest)
  {
    assert ([e] + rest)[0] == e && ([e] + rest)[1..] == rest;
  }

  /** Extending the sent levels by one extends the loop's events by one slot. */
  lemma {:induction false} DataBitsSnoc(bits: seq<Level>, l: Level)
    ensures DataBits(bits + [l]) == DataBits(bits) + BitSlot(l)
  {
    if bits == [] {
      assert DataBits([l]) == BitSlot(l) + DataBits([]);
    } else {
      assert (bits + [l])[0] == bits[0] && (bits + [l])[1..] == bits[1..] + [l];
      DataBitsSnoc(bits[1..], l);
    }
  }

  /** The write loop's events after i+1 iterations, the calls of the last
      one appended one at a time. */
  lemma WriteStep(pre: seq<Event>, bits: seq<Level>, i: nat)
    requires i < |bits|
    ensures pre + DataBits(bits[..i]) + [SetSda(bits[i])] + [SetScl(1)] + [Hold] + [SetScl(0)]
         == pre + DataBits(bits[..i + 1])
  {
    assert bits[..i + 1] == bits[..i] + [bits[i]];
    DataBitsSnoc(bits[..i], bits[i]);
  }

  /** The read loop's events after i+1 iterations, the calls of the last
      one appended one at a time. */
  lemma ReadStep(pre: seq<Event>, q: seq<Byte>, i: nat)
    ensures pre + ClockIn(Samples(q, i)) + [SetScl(0)] + [Hold] + [SetScl(1)] + [GetSda(Peer(q, i))]
         == pre + ClockIn(Samples(q, i + 1))
  {
    ClockInSnoc(Samples(q, i), Peer(q, i));
  }

  /** One iteration of the read loop's `rbyte <<= 1` and, for a non-zero
      sample, `rbyte |= 0x01`: the value of the first i samples becomes the
      value of the first i+1. */
  lemma Accumulate(q: seq<Byte>, i: nat, r: Byte)
    requires i < 8 && r == Value(Levels(Samples(q, i)))
    ensures (if Peer(q, i) != 0 then OrLsb(Shl(r)) else Shl(r)) == Value(Levels(Samples(q, i + 1)))
  {
    var s := Levels(Samples(q, i));
    assert (Samples(q, i) + [Peer(q, i)])[..i] == Samples(q, i);
    assert Levels(Samples(q, i + 1)) == s + [LevelOf(Peer(q, i))];
    ValueSnoc(s, LevelOf(Peer(q, i)));
    ValueBound(s);
    Pow2Bound(i);
    ShlSmall(r);
  }

  lemma {:induction false} ClockInSnoc(vs: seq<Byte>, v: Byte)
    ensures ClockIn(vs + [v]) == ClockIn(vs) + SampleSlot(v)
  {
    if vs == [] {
      assert ClockIn([v]) == SampleSlot(v) + ClockIn([]);
    } else {
      assert (vs + [v])[0] == vs[0] && (vs + [v])[1..] == vs[1..] + [v];
      ClockInSnoc(vs[1..], v);
    }
  }

  // ---------------------------------------------------------------------
  // i2c_config

  /** From any pins, configuring leaves the bus idle, and configuring again
      changes nothing. */
  lemma ConfigIdle(st: PinState)
    ensures Run(st, ConfigEvents()) == Idle()
    ensures Run(Run(st, ConfigEvents()), ConfigEvents()) == Run(st, ConfigEvents())
  {
    ConfigRun(st);
    ConfigRun(Idle());
  }

  lemma ConfigRun(st: PinState)
    ensures Run(st, ConfigEvents()) == Idle()
  {
    var es := ConfigEvents();
    assert es[1..] == [SclMode(IoOut), SetSda(1), SetScl(1)];
  }

  /** Configuring drives SDA only after making it an output. */
  lemma ConfigDirection(st: PinState)
    ensures Obeys(Direction, st, ConfigEvents())
  {
    var es := ConfigEvents();
    assert es[1..][1..] == [SetSda(1), SetScl(1)];
  }

  /** Configuring drives SDA high without first driving SCL low, so it keeps
      the data-validity rule exactly when it finds SCL already low; from the
      idle bus it does not. */
  lemma ConfigDataValidity(st: PinState)
    ensures Obeys(DataValidity, st, ConfigEvents()) <==> st.scl == 0
  {
    var st1 := st.(sdaMode := IoOut);
    var st2 := st1.(sclMode := IoOut);
    var st3 := st2.(sda := 1);
    assert ConfigEvents() == [SdaMode(IoOut)] + [SclMode(IoOut), SetSda(1), SetScl(1)];
    ViewsOfCons(st, SdaMode(IoOut), [SclMode(IoOut), SetSda(1), SetScl(1)]);
    ViewsOfCons(st1, SclMode(IoOut), [SetSda(1), SetScl(1)]);
    ViewsOfCons(st2, SetSda(1), [SetScl(1)]);
    ViewsOfCons(st3, SetScl(1), []);
  }

  /** Configuring right after a START makes SDA rise while SCL is high: its
      `set_sda(1)` is a STOP condition outside `i2c_stop`. */
  lemma ConfigAfterStartIsStop(st: PinState)
    ensures IsStop(Run(Run(st, StartEvents()), ConfigEvents()[..2]), ConfigEvents()[2])
  {
    StartCondition(st);
    var mid := Run(st, StartEvents());
    var setup := ConfigEvents()[..2];
    assert setup == [SdaMode(IoOut), SclMode(IoOut)] && setup[1..] == [SclMode(IoOut)];
    assert Run(mid, setup) == mid.(sdaMode := IoOut, sclMode := IoOut);
  }

  // ---------------------------------------------------------------------
  // i2c_strt and i2c_stop

  lemma StartSetupRun(st: PinState)
    ensures Run(st, StartSetup()) == PinState(IoOut, st.sclMode, 1, 1)
    ensures Obeys(Direction, st, StartSetup()) && Obeys(DataValidity, st, StartSetup())
  {
    var es := StartSetup();
    assert es[1..][1..] == [SetSda(1), SetScl(1), Hold];
  }

  lemma StopSetupRun(st: PinState)
    ensures Run(st, StopSetup()) == PinState(IoOut, st.sclMode, 0, 1)
    ensures Obeys(Direction, st, StopSetup()) && Obeys(DataValidity, st, StopSetup())
  {
    var es := StopSetup();
    assert es[1..][1..] == [SetSda(0), SetScl(1), Hold];
  }

  /** START from any pins: every call keeps both rules except the one that
      makes SDA fall while SCL is high, which is the START condition; it
      ends with SCL high, SDA low and SDA an output. */
  lemma StartCondition(st: PinState)
    ensures Obeys(Direction, st, StartEvents())
    ensures Obeys(DataValidity, st, StartSetup())
    ensures IsStart(Run(st, StartSetup()), SetSda(0))
    ensures Run(st, StartEvents()) == PinState(IoOut, st.sclMode, 0, 1)
  {
    StartSetupRun(st);
    var mid := Run(st, StartSetup());
    RunAppend(st, StartSetup(), [SetSda(0), Hold]);
    ObeysAppend(Direction, st, StartSetup(), [SetSda(0), Hold]);
    assert [SetSda(0), Hold][1..] == [Hold];
  }

  /** STOP from any pins: every call keeps both rules except the one that
      makes SDA rise while SCL is high, which is the STOP condition; it ends
      with both lines high and SDA an output. */
  lemma StopCondition(st: PinState)
    ensures Obeys(Direction, st, StopEvents())
    ensures Obeys(DataValidity, st, StopSetup())
    ensures IsStop(Run(st, StopSetup()), SetSda(1))
    ensures Run(st, StopEvents()) == PinState(IoOut, st.sclMode, 1, 1)
  {
    StopSetupRun(st);
    RunAppend(st, StopSetup(), [SetSda(1), Hold]);
    ObeysAppend(Direction, st, StopSetup(), [SetSda(1), Hold]);
    assert [SetSda(1), Hold][1..] == [Hold];
  }

  /** START then STOP leaves the bus idle exactly when SCL was an output. */
  lemma StartThenStop(st: PinState)
    ensures Run(st, StartEvents() + StopEvents()) == Idle() <==> st.sclMode == IoOut
  {
    StartCondition(st);
    StopCondition(Run(st, StartEvents()));
    RunAppend(st, StartEvents(), StopEvents());
  }

  // ---------------------------------------------------------------------
  // The acknowledge bit

  /** The acknowledge the master sends: SDA driven to the enum's value, ACK
      low and NACK high, on one clock pulse, ending with SCL low and SDA an
      output; SDA is driven only as an output while SCL is low. */
  lemma SendRspFrame(st: PinState, ack: Rsp)
    ensures SdaLevels(SendRspEvents(ack)) == [RspCode(ack)] && Sampled(SendRspEvents(ack)) == []
    ensures ClockPulses(SendRspEvents(ack)) == 1
    ensures Run(st, SendRspEvents(ack)) == PinState(IoOut, st.sclMode, RspCode(ack), 0)
    ensures Obeys(Direction, st, SendRspEvents(ack)) && Obeys(DataValidity, st, SendRspEvents(ack))
  {
    var l := if ack == ACK then 0 else 1;
    assert l == RspCode(ack);
    var st1 := st.(scl := 0);
    var st2 := st1.(sdaMode := IoOut);
    var st3 := st2.(sda := l);
    var st4 := st3.(scl := 1);
    assert SendRspEvents(ack) == [SetScl(0)] + [SdaMode(IoOut), SetSda(l), SetScl(1), Hold, SetScl(0)];
    ViewsOfCons(st, SetScl(0), [SdaMode(IoOut), SetSda(l), SetScl(1), Hold, SetScl(0)]);
    ViewsOfCons(st1, SdaMode(IoOut), [SetSda(l), SetScl(1), Hold, SetScl(0)]);
    ViewsOfCons(st2, SetSda(l), [SetScl(1), Hold, SetScl(0)]);
    ViewsOfCons(st3, SetScl(1), [Hold, SetScl(0)]);
    ViewsOfCons(st4, Hold, [SetScl(0)]);
    ViewsOfCons(st4, SetScl(0), []);
  }

  /** The acknowledge the master receives: one sample, taken with SDA an input
      while SCL is high, on one clock pulse, ending with SCL low. */
  lemma RecvRspFrame(st: PinState, v: Byte)
    ensures Sampled(RecvRspEvents(v)) == [v] && SdaLevels(RecvRspEvents(v)) == []
    ensures ClockPulses(RecvRspEvents(v)) == 1
    ensures Run(st, RecvRspEvents(v)) == PinState(IoIn, st.sclMode, st.sda, 0)
    ensures Obeys(Direction, st, RecvRspEvents(v)) && Obeys(DataValidity, st, RecvRspEvents(v))
  {
    var st1 := st.(sdaMode := IoIn);
    var st2 := st1.(scl := 1);
    assert RecvRspEvents(v) == [SdaMode(IoIn)] + [SetScl(1), GetSda(v), SetScl(0)];
    ViewsOfCons(st, SdaMode(IoIn), [SetScl(1), GetSda(v), SetScl(0)]);
    ViewsOfCons(st1, SetScl(1), [GetSda(v), SetScl(0)]);
    ViewsOfCons(st2, GetSda(v), [SetScl(0)]);
    ViewsOfCons(st2, SetScl(0), []);
  }

  // ---------------------------------------------------------------------
  // i2c_wbyte

  /** Slot k of the data phase drives level bits[k] and then gives exactly
      one clock pulse: SCL high, a hold, SCL low. */
  lemma {:induction false} DataBitsAt(bits: seq<Level>, k: nat)
    requires k < |bits|
    ensures DataBits(bits)[4 * k..4 * k + 4] == [SetSda(bits[k]), SetScl(1), Hold, SetScl(0)]
  {
    if k > 0 {
      DataBitsAt(bits[1..], k - 1);
      assert DataBits(bits)[4 * k..4 * k + 4] == DataBits(bits[1..])[4 * (k - 1)..4 * (k - 1) + 4];
    }
  }

  lemma BitSlotFrame(st: PinState, l: Level)
    requires st.sdaMode == IoOut && st.scl == 0
    ensures SdaLevels(BitSlot(l)) == [l] && Sampled(BitSlot(l)) == []
    ensures ClockPulses(BitSlot(l)) == 1
    ensures Obeys(Direction, st, BitSlot(l)) && Obeys(DataValidity, st, BitSlot(l))
    ensures Run(st, BitSlot(l)) == st.(sda := l)
  {
    var es := BitSlot(l);
    assert es[1..] == [SetScl(1), Hold, SetScl(0)];
    assert es[1..][1..] == [Hold, SetScl(0)];
    assert es[1..][1..][1..] == [SetScl(0)];
  }

  /** The data phase drives exactly the given levels, samples nothing and
      gives one clock pulse per level. */
  lemma {:induction false} DataBitsViews(bits: seq<Level>)
    ensures SdaLevels(DataBits(bits)) == bits && Sampled(DataBits(bits)) == []
    ensures ClockPulses(DataBits(bits)) == |bits|
  {
    if bits != [] {
      var slot, rest := BitSlot(bits[0]), DataBits(bits[1..]);
      BitSlotFrame(PinState(IoOut, IoOut, 0, 0), bits[0]);
      DataBitsViews(bits[1..]);
      SdaLevelsAppend(slot, rest);
      SampledAppend(slot, rest);
      ClockPulsesAppend(slot, rest);
    }
  }

  /** The data phase from pins where SDA is an output and SCL low keeps both
      rules and ends with SCL low and SDA holding the last level. */
  lemma {:induction false} DataBitsFrame(st: PinState, bits: seq<Level>)
    requires st.sdaMode == IoOut && st.scl == 0
    decreases |bits|
    ensures SdaLevels(DataBits(bits)) == bits && Sampled(DataBits(bits)) == []
    ensures ClockPulses(DataBits(bits)) == |bits|
    ensures Obeys(Direction, st, DataBits(bits)) && Obeys(DataValidity, st, DataBits(bits))
    ensures Run(st, DataBits(bits))
         == if bits == [] then st else st.(sda := bits[|bits| - 1])
  {
    DataBitsViews(bits);
    if bits != [] {
      var slot, rest := BitSlot(bits[0]), DataBits(bits[1..]);
      var mid := st.(sda := bits[0]);
      BitSlotFrame(st, bits[0]);
      DataBitsFrame(mid, bits[1..]);
      RunAppend(st, slot, rest);
      ObeysAppend(Direction, st, slot, rest);
      ObeysAppend(DataValidity, st, slot, rest);
      if bits[1..] != [] {
        assert bits[1..][|bits[1..]| - 1] == bits[|bits| - 1];
      }
    }
  }

  /** Writing byte b: SDA carries exactly the 8 levels of b, most significant
      first, each on its own clock pulse; the ninth pulse samples the
      acknowledge, the one value sampled. Both rules hold from any pins, and
      the write ends with SCL low, SDA an input and its latch at b's last
      bit. */
  lemma WriteByteFrame(st: PinState, b: Byte, v: Byte)
    ensures SdaLevels(WriteByteEvents(b, v)) == ToBits(b, 8)
    ensures Sampled(WriteByteEvents(b, v)) == [v]
    ensures ClockPulses(WriteByteEvents(b, v)) == 9
    ensures Obeys(Direction, st, WriteByteEvents(b, v))
    ensures Obeys(DataValidity, st, WriteByteEvents(b, v))
    ensures Run(st, WriteByteEvents(b, v)) == PinState(IoIn, st.sclMode, b % 2, 0)
  {
    var pre, data, ack := [SetScl(0), SdaMode(IoOut)], DataBits(ToBits(b, 8)), RecvRspEvents(v);
    var st1 := st.(scl := 0, sdaMode := IoOut);
    assert pre[1..][1..] == [];
    assert Run(st, pre) == st1;
    DataBitsFrame(st1, ToBits(b, 8));
    LastBitIsLsb(b);
    var st2 := Run(st1, data);
    RecvRspFrame(st2, v);
    assert WriteByteEvents(b, v) == pre + (data + ack);
    SdaLevelsAppend(pre, data + ack);
    SdaLevelsAppend(data, ack);
    SampledAppend(pre, data + ack);
    SampledAppend(data, ack);
    ClockPulsesAppend(pre, data + ack);
    ClockPulsesAppend(data, ack);
    RunAppend(st, pre, data + ack);
    RunAppend(st1, data, ack);
    ObeysAppend(Direction, st, pre, data + ack);
    ObeysAppend(Direction, st1, data, ack);
    ObeysAppend(DataValidity, st, pre, data + ack);
    ObeysAppend(DataValidity, st1, data, ack);
  }

  /** The k-th level driven by a write of b is bit 7-k of b, and the bits on
      the wire read back as b. */
  lemma WriteByteMsbFirst(b: Byte, v: Byte, k: nat)
    requires k < 8
    ensures |SdaLevels(WriteByteEvents(b, v))| == 8
    ensures SdaLevels(WriteByteEvents(b, v))[k] == (b / Pow2(7 - k)) % 2
    ensures Value(SdaLevels(WriteByteEvents(b, v))) == b
  {
    WriteByteFrame(Idle(), b, v);
    ToBitsAt(b, 8, k);
    Pow2Seven();
    ValueOfToBits(b, 8);
  }

  /** After the leading SCL-low and SDA-to-output calls, the events of the
      k-th data slot of a write of b drive bit 7-k of b and pulse SCL once. */
  lemma WriteByteSlot(b: Byte, v: Byte, k: nat)
    requires k < 8
    ensures WriteByteEvents(b, v)[2 + 4 * k..6 + 4 * k]
         == [SetSda((b / Pow2(7 - k)) % 2), SetScl(1), Hold, SetScl(0)]
  {
    var data := DataBits(ToBits(b, 8));
    DataBitsAt(ToBits(b, 8), k);
    ToBitsAt(b, 8, k);
    assert WriteByteEvents(b, v)[2 + 4 * k..6 + 4 * k] == data[4 * k..4 * k + 4];
  }

  // ---------------------------------------------------------------------
  // i2c_rbyte

  lemma SampleSlotFrame(st: PinState, v: Byte)
    requires st.sdaMode == IoIn
    ensures Sampled(SampleSlot(v)) == [v] && SdaLevels(SampleSlot(v)) == []
    ensures ClockPulses(SampleSlot(v)) == 1
    ensures Obeys(Direction, st, SampleSlot(v)) && Obeys(DataValidity, st, SampleSlot(v))
    ensures Run(st, SampleSlot(v)) == st.(scl := 1)
  {
    var st1 := st.(scl := 0);
    var st2 := st1.(scl := 1);
    assert SampleSlot(v) == [SetScl(0)] + [Hold, SetScl(1), GetSda(v)];
    ViewsOfCons(st, SetScl(0), [Hold, SetScl(1), GetSda(v)]);
    ViewsOfCons(st1, Hold, [SetScl(1), GetSda(v)]);
    ViewsOfCons(st1, SetScl(1), [GetSda(v)]);
    ViewsOfCons(st2, GetSda(v), []);
  }

  /** The sampling loop samples exactly the given values, drives nothing
      and gives one clock pulse per sample. */
  lemma {:induction false} ClockInViews(vs: seq<Byte>)
    ensures Sampled(ClockIn(vs)) == vs && SdaLevels(ClockIn(vs)) == []
    ensures ClockPulses(ClockIn(vs)) == |vs|
  {
    if vs != [] {
      var slot, rest := SampleSlot(vs[0]), ClockIn(vs[1..]);
      SampleSlotFrame(PinState(IoIn, IoOut, 1, 0), vs[0]);
      ClockInViews(vs[1..]);
      SdaLevelsAppend(slot, rest);
      SampledAppend(slot, rest);
      ClockPulsesAppend(slot, rest);
    }
  }

  /** The sampling loop from pins where SDA is an input keeps both rules and
      leaves SDA an input. */
  lemma {:induction false} ClockInFrame(st: PinState, vs: seq<Byte>)
    requires st.sdaMode == IoIn
    decreases |vs|
    ensures Sampled(ClockIn(vs)) == vs && SdaLevels(ClockIn(vs)) == []
    ensures ClockPulses(ClockIn(vs)) == |vs|
    ensures Obeys(Direction, st, ClockIn(vs)) && Obeys(DataValidity, st, ClockIn(vs))
    ensures Run(st, ClockIn(vs)) == if vs == [] then st else st.(scl := 1)
  {
    ClockInViews(vs);
    if vs != [] {
      var slot, rest := SampleSlot(vs[0]), ClockIn(vs[1..]);
      var mid := st.(scl := 1);
      SampleSlotFrame(st, vs[0]);
      ClockInFrame(mid, vs[1..]);
      RunAppend(st, slot, rest);
      ObeysAppend(Direction, st, slot, rest);
      ObeysAppend(DataValidity, st, slot, rest);
    }
  }

  /** Reading a byte: the values sampled are exactly those get_sda returned,
      SDA is driven only once, to the acknowledge's value, each sample and
      the acknowledge get their own clock pulse, both rules hold from any
      pins, and the read ends with SCL low and SDA an output. */
  lemma ReadByteFrame(st: PinState, vs: seq<Byte>, ack: Rsp)
    ensures Sampled(ReadByteEvents(vs, ack)) == vs
    ensures SdaLevels(ReadByteEvents(vs, ack)) == [RspCode(ack)]
    ensures ClockPulses(ReadByteEvents(vs, ack)) == |vs| + 1
    ensures Obeys(Direction, st, ReadByteEvents(vs, ack))
    ensures Obeys(DataValidity, st, ReadByteEvents(vs, ack))
    ensures Run(st, ReadByteEvents(vs, ack)) == PinState(IoOut, st.sclMode, RspCode(ack), 0)
  {
    var pre, data, low, rsp := [SetScl(0), SdaMode(IoIn)], ClockIn(vs), [SetScl(0)], SendRspEvents(ack);
    var st1 := st.(scl := 0, sdaMode := IoIn);
    assert pre[1..][1..] == [];
    assert Run(st, pre) == st1;
    ClockInFrame(st1, vs);
    var st2 := Run(st1, data);
    var st3 := st2.(scl := 0);
    assert Run(st2, low) == st3;
    SendRspFrame(st3, ack);
    var tail := low + rsp;
    assert ReadByteEvents(vs, ack) == pre + (data + tail);
    SdaLevelsAppend(pre, data + tail);
    SdaLevelsAppend(data, tail);
    SdaLevelsAppend(low, rsp);
    SampledAppend(pre, data + tail);
    SampledAppend(data, tail);
    SampledAppend(low, rsp);
    ClockPulsesAppend(pre, data + tail);
    ClockPulsesAppend(data, tail);
    ClockPulsesAppend(low, rsp);
    RunAppend(st, pre, data + tail);
    RunAppend(st1, data, tail);
    RunAppend(st2, low, rsp);
    ObeysAppend(Direction, st, pre, data + tail);
    ObeysAppend(Direction, st1, data, tail);
    ObeysAppend(Direction, st2, low, rsp);
    ObeysAppend(DataValidity, st, pre, data + tail);
    ObeysAppend(DataValidity, st1, data, tail);
    ObeysAppend(DataValidity, st2, low, rsp);
  }

  /** The byte assembled from the first 8 values get_sda returns is below
      256, and its bit 7-k is the k-th sample read as a C truth value: the
      first sample becomes the most significant bit. */
  lemma ReadByteMsbFirst(q: seq<Byte>, k: nat)
    requires k < 8
    ensures Value(Levels(Samples(q, 8))) < 256
    ensures (Value(Levels(Samples(q, 8))) / Pow2(7 - k)) % 2 == LevelOf(Peer(q, k))
  {
    var s := Levels(Samples(q, 8));
    ValueBound(s);
    Pow2Seven();
    ToBitsOfValue(s);
    ToBitsAt(Value(s), 8, k);
    LevelsAt(Samples(q, 8), k);
    SamplesAt(q, 8, k);
  }

  // ---------------------------------------------------------------------
  // Any sequence of operations

  /** One call of the public engine API, with what the peer answers. */
  datatype Op =
    | Config
    | Start
    | Stop
    | WriteByte(b: Byte, ackSample: Byte)
    | ReadByte(samples: seq<Byte>, ack: Rsp)

  function OpEvents(op: Op): seq<Event> {
    match op
    case Config => ConfigEvents()
    case Start => StartEvents()
    case Stop => StopEvents()
    case WriteByte(b, v) => WriteByteEvents(b, v)
    case ReadByte(vs, ack) => ReadByteEvents(vs, ack)
  }

  /** The trace of a sequence of API calls. */
  function Session(ops: seq<Op>): seq<Event> {
    if ops == [] then [] else OpEvents(ops[0]) + Session(ops[1..])
  }

  lemma OpDirection(st: PinState, op: Op)
    ensures Obeys(Direction, st, OpEvents(op))
  {
    match op
    case Config =>
      ConfigDirection(st);
    case Start =>
      StartCondition(st);
    case Stop =>
      StopCondition(st);
    case WriteByte(b, v) =>
      assert OpEvents(op) == WriteByteEvents(b, v);
      WriteByteFrame(st, b, v);
    case ReadByte(vs, ack) =>
      assert OpEvents(op) == ReadByteEvents(vs, ack);
      ReadByteFrame(st, vs, ack);
  }

  /** Whatever the pins and whatever the calls, the engine drives SDA only as
      an output and samples it only as an input. */
  lemma {:induction false} SessionDirection(st: PinState, ops: seq<Op>)
    ensures Obeys(Direction, st, Session(ops))
    decreases |ops|
  {
    if ops != [] {
      OpDirection(st, ops[0]);
      SessionDirection(Run(st, OpEvents(ops[0])), ops[1..]);
      ObeysAppend(Direction, st, OpEvents(ops[0]), Session(ops[1..]));
    }
  }
}
