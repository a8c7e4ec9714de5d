/** The types of bus_i2c.h: the acknowledge encoding, pin directions, and the
    six-operation software port `sw_i2c_t` the engine drives. The port is an
    abstract bus object: it keeps the direction and level of both lines,
    records every operation in an append-only trace, and answers `get_sda`
    from a queue of values standing in for whatever the peer drives. */
module I2cPort {
  import opened I2cBits

  datatype Option<T> = None | Some(value: T)

  /** `I2C_RSP`: acknowledge or not-acknowledge. */
  datatype Rsp = ACK | NACK

  /** The enum's numeric values. */
  function RspCode(r: Rsp): (c: Level)
    ensures c == 0 <==> r == ACK
  {
    match r
    case ACK => 0
    case NACK => 1
  }

  /** Reads a raw value into the enum; only 0 and 1 are enum values. */
  function RspOf(v: Byte): (r: Option<Rsp>)
    ensures r == Some(ACK) <==> v == 0
    ensures r == Some(NACK) <==> v == 1
    ensures r == None <==> v > 1
  {
    if v == 0 then Some(ACK) else if v == 1 then Some(NACK) else None
  }

  lemma RspRoundTrip(r: Rsp)
    ensures RspOf(RspCode(r)) == Some(r)
  {
  }

  /** `IO_MODE`, reduced to its two directions. */
  datatype IoMode = IoIn | IoOut

  /** One call on the port, in the order the engine makes them. A `GetSda`
      records the value the call returned. */
  datatype Event =
    | Hold
    | SdaMode(mode: IoMode)
    | SclMode(mode: IoMode)
    | SetScl(level: Level)
    | SetSda(level: Level)
    | GetSda(sample: Byte)

  /** Direction and driven level of both lines. */
  datatype PinState = PinState(sdaMode: IoMode, sclMode: IoMode, sda: Level, scl: Level)

  /** The bus idle, as the master leaves it: both lines outputs, both high. */
  function Idle(): PinState {
    PinState(IoOut, IoOut, 1, 1)
  }

  /** The effect of one port call on the pins. */
  function Step(st: PinState, e: Event): PinState {
    match e
    case Hold => st
    case SdaMode(m) => st.(sdaMode := m)
    case SclMode(m) => st.(sclMode := m)
    case SetScl(l) => st.(scl := l)
    case SetSda(l) => st.(sda := l)
    case GetSda(_) => st
  }

  /** The pins after a sequence of port calls. */
  function Run(st: PinState, es: seq<Event>): PinState
    decreases |es|
  {
    if es == [] then st else Run(Step(st, es[0]), es[1..])
  }

  lemma {:induction false} RunAppend(st: PinState, a: seq<Event>, b: seq<Event>)
    ensures Run(st, a + b) == Run(Run(st, a), b)
    decreases |a|
  {
    if a == [] {
      assert a + b == b;
    } else {
      assert (a + b)[0] == a[0] && (a + b)[1..] == a[1..] + b;
      RunAppend(Step(st, a[0]), a[1..], b);
    }
  }

  /** The k-th value get_sda returns from queue q. Once the queue is used up
      nobody drives SDA and the released line reads high. */
  function Peer(q: seq<Byte>, k: nat): Byte {
    if k < |q| then q[k] else 1
  }

  /** What is left of queue q after n reads. */
  function Drop(q: seq<Byte>, n: nat): seq<Byte> {
    if n <= |q| then q[n..] else []
  }

  /** After n reads, the next read returns the n-th value and leaves what
      is left after n + 1 reads. */
  lemma DropStep(q: seq<Byte>, n: nat)
    ensures Peer(Drop(q, n), 0) == Peer(q, n) && Drop(Drop(q, n), 1) == Drop(q, n + 1)
  {
  }

  /** The first n values get_sda returns from q. */
  function Samples(q: seq<Byte>, n: nat): (s: seq<Byte>)
    ensures |s| == n
  {
    if n == 0 then [] else Samples(q, n - 1) + [Peer(q, n - 1)]
  }

  lemma {:induction false} SamplesAt(q: seq<Byte>, n: nat, k: nat)
    requires k < n
    ensures Samples(q, n)[k] == Peer(q, k)
  {
    if k < n - 1 {
      SamplesAt(q, n - 1, k);
    }
  }

  /** The software port `sw_i2c_t`. */
  class SwI2c {
    var sdaMode: IoMode
    var sclMode: IoMode
    var sda: Level
    var scl: Level
    /** Every port call so far, oldest first. */
    var trace: seq<Event>
    /** What get_sda will return next, oldest first. */
    var input: seq<Byte>

    function State(): PinState
      reads this
    {
      PinState(sdaMode, sclMode, sda, scl)
    }

    constructor (st: PinState, peer: seq<Byte>)
      ensures State() == st && trace == [] && input == peer
    {
      sdaMode, sclMode, sda, scl := st.sdaMode, st.sclMode, st.sda, st.scl;
      trace, input := [], peer;
    }

    /** Appends e to the trace and applies it to the pins. */
    method Record(e: Event)
      modifies this
      ensures trace == old(trace) + [e] && input == old(input)
      ensures State() == Step(old(State()), e)
    {
      var st := Step(State(), e);
      sdaMode, sclMode, sda, scl := st.sdaMode, st.sclMode, st.sda, st.scl;
      trace := trace + [e];
    }

    /** `holdtime()`: a delay; the pins do not change. */
    method Holdtime()
      modifies this
      ensures trace == old(trace) + [Hold] && input == old(input)
      ensures sdaMode == old(sdaMode) && sclMode == old(sclMode) && sda == old(sda) && scl == old(scl)
    {
      Record(Hold);
    }

    /** `sda_mode(mode)`. */
    method SetSdaMode(mode: IoMode)
      modifies this
      ensures trace == old(trace) + [SdaMode(mode)] && input == old(input)
      ensures sdaMode == mode && sclMode == old(sclMode) && sda == old(sda) && scl == old(scl)
    {
      Record(SdaMode(mode));
    }

    /** `scl_mode(mode)`. */
    method SetSclMode(mode: IoMode)
      modifies this
      ensures trace == old(trace) + [SclMode(mode)] && input == old(input)
      ensures sdaMode == old(sdaMode) && sclMode == mode && sda == old(sda) && scl == old(scl)
    {
      Record(SclMode(mode));
    }

    /** `set_scl(level)`. */
    method SetScl(level: Level)
      modifies this
      ensures trace == old(trace) + [Event.SetScl(level)] && input == old(input)
      ensures sdaMode == old(sdaMode) && sclMode == old(sclMode) && sda == old(sda) && scl == level
    {
      Record(Event.SetScl(level));
    }

    /** `set_sda(level)`. */
    method SetSda(level: Level)
      modifies this
      ensures trace == old(trace) + [Event.SetSda(level)] && input == old(input)
      ensures sdaMode == old(sdaMode) && sclMode == old(sclMode) && sda == level && scl == old(scl)
    {
      Record(Event.SetSda(level));
    }

    /** `get_sda()`: takes the next value from the peer queue. */
    method GetSda() returns (v: Byte)
      modifies this
      ensures v == Peer(old(input), 0) && input == Drop(old(input), 1)
      ensures trace == old(trace) + [Event.GetSda(v)]
      ensures sdaMode == old(sdaMode) && sclMode == old(sclMode) && sda == old(sda) && scl == old(scl)
    {
      v := Peer(input, 0);
      Record(Event.GetSda(v));
      input := Drop(input, 1);
    }
  }
}
