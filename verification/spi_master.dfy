/** The emulated SPI master (EmulateSPIMaster/mattoControlM.c): a
    half-duplex toggle that alternates between transmitting the caller's
    byte and clocking out a fixed dummy byte so that the slave can answer,
    and the driver loop that feeds it the counter values 0 to 99 forever.

    Each call of `tx` is modelled statement by statement as register
    operations replayed on the master's state, so that properties of the
    select line at the moment of each data write can be stated over whole
    runs. */
module SpiMaster {
  import opened Bytes

  /** Values of the status variable. */
  const TRANSMIT_MODE: char := 'T'
  const RECEIVE_MODE: char := 'R'

  /** The byte clocked out in receive mode. */
  const DUMMY_BYTE: Byte := 120

  /** Port B pin 4 is the slave-select line; `_BV(PB4)` is its mask. */
  const PB4: bv8 := 4
  const SS_MASK: Byte := 1 << PB4

  /** Number of `tx` calls in one pass of the driver's inner loop. */
  const PASS_LENGTH: nat := 100

  /** The state `tx` reads and writes: the status variable, the SPI data
      register SPDR and the port B output register PORTB. */
  datatype Machine = Machine(status: char, spdr: Byte, portB: Byte)

  predicate IsMode(status: char) {
    status == TRANSMIT_MODE || status == RECEIVE_MODE
  }

  /** The select line is high (the slave is not addressed). */
  predicate SelectHigh(portB: Byte) {
    portB & SS_MASK == SS_MASK
  }

  /** The port B pins other than the select line. */
  function OtherPins(portB: Byte): Byte {
    portB & !SS_MASK
  }

  /** The master after reset: the status variable starts in transmit mode;
      the registers hold whatever the (unmodelled) initialisation left. */
  function Initial(spdr: Byte, portB: Byte): Machine {
    Machine(TRANSMIT_MODE, spdr, portB)
  }

  /** One statement of `tx` that changes state. */
  datatype RegOp =
    | ClearPortB(mask: Byte)   // PORTB &= ~mask
    | SetPortB(mask: Byte)     // PORTB |= mask
    | WriteSpdr(value: Byte)   // SPDR = value
    | SetStatus(mode: char)    // SPIStatus = mode

  function Apply(m: Machine, op: RegOp): Machine {
    match op
    case ClearPortB(mask) => m.(portB := m.portB & !mask)
    case SetPortB(mask) => m.(portB := m.portB | mask)
    case WriteSpdr(value) => m.(spdr := value)
    case SetStatus(mode) => m.(status := mode)
  }

  /** Perform a sequence of register operations in order. */
  function Replay(m: Machine, ops: seq<RegOp>): Machine
    decreases |ops|
  {
    if ops == [] then m else Replay(Apply(m, ops[0]), ops[1..])
  }

  /** The operations `tx(sendData)` performs, in program order, given the
      status it finds. The switch has no default case: any other status
      performs nothing. */
  function TxOps(status: char, sendData: Byte): seq<RegOp> {
    if status == TRANSMIT_MODE then
      [ClearPortB(SS_MASK), WriteSpdr(sendData), SetStatus(RECEIVE_MODE), SetPortB(SS_MASK)]
    else if status == RECEIVE_MODE then
      [ClearPortB(SS_MASK), WriteSpdr(DUMMY_BYTE), SetStatus(TRANSMIT_MODE), SetPortB(SS_MASK)]
    else
      []
  }

  /** The byte a data-register write puts on the bus, for each write in
      order. */
  function Written(ops: seq<RegOp>): seq<Byte> {
    if ops == [] then []
    else if ops[0].WriteSpdr? then [ops[0].value] + Written(ops[1..])
    else Written(ops[1..])
  }

  /** The status `tx` leaves behind. */
  function NextStatus(status: char): char {
    if status == TRANSMIT_MODE then RECEIVE_MODE
    else if status == RECEIVE_MODE then TRANSMIT_MODE
    else status
  }

  /** The byte `tx` writes to the data register in a given mode. */
  function OutByte(status: char, sendData: Byte): Byte {
    if status == TRANSMIT_MODE then sendData else DUMMY_BYTE
  }

  /** `tx(sendData)`: in transmit mode it sends the caller's byte and
      switches to receive mode; in receive mode it sends the dummy byte,
      whatever the caller passed, and switches back. Either way the select
      line ends high and no other port B pin changes. */
  function Tx(m: Machine, sendData: Byte): (r: Machine)
    ensures m.status == TRANSMIT_MODE ==> r.status == RECEIVE_MODE && r.spdr == sendData
    ensures m.status == RECEIVE_MODE ==> r.status == TRANSMIT_MODE && r.spdr == DUMMY_BYTE
    ensures IsMode(m.status) ==> SelectHigh(r.portB) && OtherPins(r.portB) == OtherPins(m.portB)
    ensures !IsMode(m.status) ==> r == m
    ensures IsMode(r.status) <==> IsMode(m.status)
  {
    if IsMode(m.status) then
      TxEffect(m, sendData);
      SelectBitFacts(m.portB);
      Replay(m, TxOps(m.status, sendData))
    else
      Replay(m, TxOps(m.status, sendData))
  }

  /** Performing one operation and then the rest. */
  lemma ReplayCons(m: Machine, op: RegOp, rest: seq<RegOp>)
    ensures Replay(m, [op] + rest) == Replay(Apply(m, op), rest)
  {
  }

  /** Replaying the four operations of a `tx` call one at a time. */
  lemma TxEffect(m: Machine, sendData: Byte)
    requires IsMode(m.status)
    ensures Replay(m, TxOps(m.status, sendData))
      == Machine(NextStatus(m.status), OutByte(m.status, sendData), (m.portB & !SS_MASK) | SS_MASK)
  {
    var a, b, c, d := ClearPortB(SS_MASK), WriteSpdr(OutByte(m.status, sendData)),
      SetStatus(NextStatus(m.status)), SetPortB(SS_MASK);
    assert TxOps(m.status, sendData) == [a] + ([b] + ([c] + ([d] + [])));
    ReplayCons(m, a, [b] + ([c] + ([d] + [])));
    var m1 := Apply(m, a);
    ReplayCons(m1, b, [c] + ([d] + []));
    var m2 := Apply(m1, b);
    ReplayCons(m2, c, [d] + []);
    var m3 := Apply(m2, c);
    ReplayCons(m3, d, []);
  }

  /** Clearing the select bit drives the line low, setting it again drives
      it high, and neither touches another pin. */
  lemma SelectBitFacts(portB: Byte)
    ensures !SelectHigh(portB & !SS_MASK)
    ensures SelectHigh((portB & !SS_MASK) | SS_MASK)
    ensures OtherPins(portB & !SS_MASK) == OtherPins(portB)
    ensures OtherPins((portB & !SS_MASK) | SS_MASK) == OtherPins(portB)
  {
  }

  /** Two consecutive calls restore the status, whatever was sent. */
  lemma TxTwiceRestoresStatus(m: Machine, first: Byte, second: Byte)
    ensures Tx(Tx(m, first), second).status == m.status
  {
  }

  /** Every data-register write in `ops`, replayed from `m`, happens while
      the select line is low. */
  predicate SelectLowAtWrites(m: Machine, ops: seq<RegOp>) {
    forall k :: 0 <= k < |ops| && ops[k].WriteSpdr? ==> !SelectHigh(Replay(m, ops[..k]).portB)
  }

  /** Replaying `a + b` is replaying `a`, then `b`. */
  lemma {:induction false} ReplayAppend(m: Machine, a: seq<RegOp>, b: seq<RegOp>)
    ensures Replay(m, a + b) == Replay(Replay(m, a), b)
    decreases |a|
  {
    if a == [] {
      assert a + b == b;
    } else {
      assert (a + b)[0] == a[0];
      assert (a + b)[1..] == a[1..] + b;
      ReplayAppend(Apply(m, a[0]), a[1..], b);
    }
  }

  /** The writes of `a + b` are those of `a`, then those of `b`. */
  lemma {:induction false} WrittenAppend(a: seq<RegOp>, b: seq<RegOp>)
    ensures Written(a + b) == Written(a) + Written(b)
    decreases |a|
  {
    if a == [] {
      assert a + b == b;
    } else {
      assert (a + b)[0] == a[0];
      assert (a + b)[1..] == a[1..] + b;
      WrittenAppend(a[1..], b);
    }
  }

  /** The writes of one operation followed by the rest. */
  lemma WrittenCons(op: RegOp, rest: seq<RegOp>)
    ensures Written([op] + rest) == (if op.WriteSpdr? then [op.value] else []) + Written(rest)
  {
  }

  /** One `tx` call puts exactly one byte on the bus, the mode's byte; in
      any other status it writes nothing. */
  lemma TxWritesOnce(m: Machine, sendData: Byte)
    ensures Written(TxOps(m.status, sendData))
      == if IsMode(m.status) then [OutByte(m.status, sendData)] else []
  {
    if IsMode(m.status) {
      var ops := TxOps(m.status, sendData);
      var a, b, c, d := ops[0], ops[1], ops[2], ops[3];
      assert ops == [a] + ([b] + ([c] + ([d] + [])));
      WrittenCons(a, [b] + ([c] + ([d] + [])));
      WrittenCons(b, [c] + ([d] + []));
      WrittenCons(c, [d] + []);
      WrittenCons(d, []);
    }
  }

  /** `tx` drives the select line low before it writes the data register. */
  lemma TxSelectsBeforeWrite(m: Machine, sendData: Byte)
    ensures SelectLowAtWrites(m, TxOps(m.status, sendData))
  {
  }

  /** Bus discipline composes: if it holds for `a` from `m` and for `b`
      from where `a` leaves the master, it holds for `a + b`. */
  lemma SelectLowAtWritesAppend(m: Machine, a: seq<RegOp>, b: seq<RegOp>)
    requires SelectLowAtWrites(m, a)
    requires SelectLowAtWrites(Replay(m, a), b)
    ensures SelectLowAtWrites(m, a + b)
  {
    forall k | 0 <= k < |a + b| && (a + b)[k].WriteSpdr?
      ensures !SelectHigh(Replay(m, (a + b)[..k]).portB)
    {
      if k < |a| {
        assert (a + b)[..k] == a[..k];
        assert a[k] == (a + b)[k];
      } else {
        var j := k - |a|;
        assert (a + b)[..k] == a + b[..j];
        assert b[j] == (a + b)[k];
        ReplayAppend(m, a, b[..j]);
      }
    }
  }

  /** The master after `tx` has been called with each byte of `data` in
      turn: the driver loop as a fold. */
  function Run(m: Machine, data: seq<Byte>): Machine
    decreases |data|
  {
    if data == [] then m else Run(Tx(m, data[0]), data[1..])
  }

  /** All register operations of those calls, in order. */
  function RunOps(m: Machine, data: seq<Byte>): seq<RegOp>
    decreases |data|
  {
    if data == [] then [] else TxOps(m.status, data[0]) + RunOps(Tx(m, data[0]), data[1..])
  }

  /** The bytes those calls put on the bus, in order. */
  function Sent(m: Machine, data: seq<Byte>): seq<Byte> {
    Written(RunOps(m, data))
  }

  /** The fold and the operation trace agree: replaying the trace gives the
      master the fold computes. */
  lemma {:induction false} RunIsReplay(m: Machine, data: seq<Byte>)
    ensures Replay(m, RunOps(m, data)) == Run(m, data)
    decreases |data|
  {
    if data != [] {
      ReplayAppend(m, TxOps(m.status, data[0]), RunOps(Tx(m, data[0]), data[1..]));
      RunIsReplay(Tx(m, data[0]), data[1..]);
    }
  }

  /** Over any run, every byte is written while the select line is low. */
  lemma {:induction false} RunBusDiscipline(m: Machine, data: seq<Byte>)
    ensures SelectLowAtWrites(m, RunOps(m, data))
    decreases |data|
  {
    if data == [] {
    } else {
      TxSelectsBeforeWrite(m, data[0]);
      RunBusDiscipline(Tx(m, data[0]), data[1..]);
      SelectLowAtWritesAppend(m, TxOps(m.status, data[0]), RunOps(Tx(m, data[0]), data[1..]));
    }
  }

  /** The status alternates with every call: after an even number of calls
      it is back where it started. */
  lemma {:induction false} RunStatus(m: Machine, data: seq<Byte>)
    requires IsMode(m.status)
    ensures Run(m, data).status == if |data| % 2 == 0 then m.status else NextStatus(m.status)
    decreases |data|
  {
    if data != [] {
      RunStatus(Tx(m, data[0]), data[1..]);
    }
  }

  /** Starting in transmit mode, the status is only ever one of the two
      modes. */
  lemma ReachableStatusIsMode(spdr: Byte, portB: Byte, data: seq<Byte>)
    ensures IsMode(Run(Initial(spdr, portB), data).status)
  {
    RunStatus(Initial(spdr, portB), data);
  }

  /** Each call puts one byte on the bus: the caller's byte for the calls
      made in transmit mode (the even-numbered ones when the run starts in
      transmit mode, the odd-numbered ones otherwise), the dummy for the
      rest. */
  lemma {:induction false} RunSends(m: Machine, data: seq<Byte>)
    requires IsMode(m.status)
    ensures |Sent(m, data)| == |data|
    ensures forall k :: 0 <= k < |data| ==>
      Sent(m, data)[k] == if (k % 2 == 0) == (m.status == TRANSMIT_MODE) then data[k] else DUMMY_BYTE
    decreases |data|
  {
    if data != [] {
      var m1 := Tx(m, data[0]);
      var rest := data[1..];
      TxWritesOnce(m, data[0]);
      WrittenAppend(TxOps(m.status, data[0]), RunOps(m1, rest));
      RunSends(m1, rest);
      assert Sent(m, data) == [OutByte(m.status, data[0])] + Sent(m1, rest);
      forall k | 0 < k < |data|
        ensures Sent(m, data)[k] == if (k % 2 == 0) == (m.status == TRANSMIT_MODE) then data[k] else DUMMY_BYTE
      {
        ParityShift(k);
        assert Sent(m, data)[k] == Sent(m1, rest)[k - 1];
        assert rest[k - 1] == data[k];
      }
    }
  }

  /** Moving one position changes parity. */
  lemma ParityShift(k: int)
    requires 0 < k
    ensures (k % 2 == 0) == ((k - 1) % 2 != 0)
  {
  }

  /** Running `a + b` is running `a`, then `b` from where `a` left off,
      both in the resulting master and in the operation trace. */
  lemma {:induction false} RunAppend(m: Machine, a: seq<Byte>, b: seq<Byte>)
    ensures Run(m, a + b) == Run(Run(m, a), b)
    ensures RunOps(m, a + b) == RunOps(m, a) + RunOps(Run(m, a), b)
    decreases |a|
  {
    if a == [] {
      assert a + b == b;
    } else {
      assert (a + b)[0] == a[0];
      assert (a + b)[1..] == a[1..] + b;
      RunAppend(Tx(m, a[0]), a[1..], b);
    }
  }

  /** Running `a` and then `b` sends what `a` sends and then what `b` sends
      from where `a` left the master. */
  lemma SentAppend(m: Machine, a: seq<Byte>, b: seq<Byte>)
    ensures Sent(m, a + b) == Sent(m, a) + Sent(Run(m, a), b)
  {
    RunAppend(m, a, b);
    WrittenAppend(RunOps(m, a), RunOps(Run(m, a), b));
  }

  /** Extending a run over a prefix of `data` by the next element. */
  lemma RunPrefixStep(m: Machine, data: seq<Byte>, i: nat)
    requires i < |data|
    ensures Run(m, data[..i + 1]) == Tx(Run(m, data[..i]), data[i])
  {
    assert data[..i + 1] == data[..i] + [data[i]];
    RunAppend(m, data[..i], [data[i]]);
  }

  /** The argument of each call in one pass of the inner loop: the loop
      counter 0, 1, ..., 99. The `uint8_t` counter never wraps, since it
      stops at 100. */
  function PassData(): seq<Byte> {
    seq(PASS_LENGTH, i requires 0 <= i < PASS_LENGTH => i as Byte)
  }

  /** What one pass puts on the bus: the counter at even positions, the
      dummy byte at odd ones. */
  function PassPattern(): seq<Byte> {
    seq(PASS_LENGTH, i requires 0 <= i < PASS_LENGTH => if i % 2 == 0 then i as Byte else DUMMY_BYTE)
  }

  /** One pass of the inner loop of `main`, as written: 100 calls of `tx`
      with the counter, starting in transmit mode. It ends in transmit mode
      with the select line high, has sent the counter on even calls and the
      dummy on odd ones, and agrees with the fold over the counter values. */
  method DriverPass(m: Machine) returns (next: Machine, sent: seq<Byte>)
    requires m.status == TRANSMIT_MODE
    ensures next.status == TRANSMIT_MODE
    ensures SelectHigh(next.portB) && OtherPins(next.portB) == OtherPins(m.portB)
    ensures sent == PassPattern()
    ensures next == Run(m, PassData()) && sent == Sent(m, PassData())
  {
    next, sent := m, [];
    ghost var data, pattern := PassData(), PassPattern();
    var i: nat := 0;
    while i < PASS_LENGTH
      invariant i <= PASS_LENGTH
      invariant next.status == if i % 2 == 0 then TRANSMIT_MODE else RECEIVE_MODE
      invariant i > 0 ==> SelectHigh(next.portB)
      invariant OtherPins(next.portB) == OtherPins(m.portB)
      invariant |sent| == i && forall k :: 0 <= k < i ==> sent[k] == pattern[k]
      invariant next == Run(m, data[..i])
    {
      PassStep(m, next, i);
      next := Tx(next, i as Byte);
      sent := sent + [next.spdr];
      i := i + 1;
    }
    assert data[..PASS_LENGTH] == data;
    assert sent == pattern;
    PassSends(m);
  }

  /** Call `i` of a pass, from the master the first `i` calls left. */
  lemma PassStep(m: Machine, next: Machine, i: nat)
    requires i < PASS_LENGTH
    requires next.status == if i % 2 == 0 then TRANSMIT_MODE else RECEIVE_MODE
    requires next == Run(m, PassData()[..i])
    ensures Tx(next, i as Byte) == Run(m, PassData()[..i + 1])
    ensures Tx(next, i as Byte).spdr == PassPattern()[i]
  {
    RunPrefixStep(m, PassData(), i);
  }

  /** The fold over one pass: it ends back in transmit mode, having sent
      the counter on even calls and the dummy on odd ones. */
  lemma PassSends(m: Machine)
    requires m.status == TRANSMIT_MODE
    ensures Run(m, PassData()).status == TRANSMIT_MODE
    ensures Sent(m, PassData()) == PassPattern()
  {
    RunStatus(m, PassData());
    RunSends(m, PassData());
  }

  /** `n` copies of `s`, back to back. */
  function Repeat<T>(s: seq<T>, n: nat): (r: seq<T>)
    ensures |r| == n * |s|
  {
    if n == 0 then [] else s + Repeat(s, n - 1)
  }

  /** The endless outer loop of `main`, cut after any number of passes:
      each pass starts in transmit mode, so every pass sends the same
      pattern. */
  lemma {:induction false} DriveSends(m: Machine, passes: nat)
    requires m.status == TRANSMIT_MODE
    ensures Run(m, Repeat(PassData(), passes)).status == TRANSMIT_MODE
    ensures Sent(m, Repeat(PassData(), passes)) == Repeat(PassPattern(), passes)
    decreases passes
  {
    if passes > 0 {
      var rest := Repeat(PassData(), passes - 1);
      PassSends(m);
      RunAppend(m, PassData(), rest);
      SentAppend(m, PassData(), rest);
      DriveSends(Run(m, PassData()), passes - 1);
    }
  }
}
