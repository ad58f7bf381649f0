/**
 The FIFOs of AbstractUART between the guest's register accesses, the transmit thread and the receive thread.
 Every semaphore operation and every critical section is one step, and the three threads interleave freely.
 */
module Uart {
  import opened ByteSeq

  const DEPTH: nat := 8

  /** The register callback: idle, or between its queue operation and the sem_post that follows it. */
  datatype Guest = Idle | PushedTx | PoppedRx

  /** The transmit thread: before sem_wait, between sem_wait and the pop, or about to write the byte it popped. */
  datatype Transmitter = Waiting | Granted | Holding(byte: Byte)

  /** The receive thread: free to take the next input byte, or between sem_wait and the push. */
  datatype Receiver = Free | Reserved(byte: Byte)

  /** popEmpty records a pop from an empty std::queue, which is undefined behaviour. The last four fields are the
      history: bytes taken from the guest, written out, received, and handed to the guest. */
  datatype State = State(
    txFifo: seq<Byte>, txfull: nat,
    rxFifo: seq<Byte>, rxempty: nat,
    guest: Guest, transmitter: Transmitter, receiver: Receiver,
    popEmpty: bool,
    accepted: seq<Byte>, sent: seq<Byte>, received: seq<Byte>, delivered: seq<Byte>)

  const INIT := State([], 0, [], DEPTH, Idle, Waiting, Free, false, [], [], [], [])

  datatype Action =
    | WriteTxdata(value: nat)
    | ReadRxdata
    | PostTxfull
    | PostRxempty
    | WaitTxfull
    | PopTx
    | WriteOut
    | WaitRxempty(byte: Byte)
    | PushRx

  predicate Enabled(s: State, a: Action) {
    match a
    case WriteTxdata(_) => s.guest == Idle
    case ReadRxdata => s.guest == Idle
    case PostTxfull => s.guest == PushedTx
    case PostRxempty => s.guest == PoppedRx
    case WaitTxfull => s.transmitter == Waiting && s.txfull > 0
    case PopTx => s.transmitter == Granted
    case WriteOut => s.transmitter.Holding?
    case WaitRxempty(_) => s.receiver == Free && s.rxempty > 0
    case PushRx => s.receiver.Reserved?
  }

  function Next(s: State, a: Action): State
    requires Enabled(s, a)
  {
    match a
    case WriteTxdata(v) =>
      if |s.txFifo| >= DEPTH then s
      else s.(txFifo := s.txFifo + [v % 256], accepted := s.accepted + [v % 256], guest := PushedTx)
    case ReadRxdata =>
      if s.rxFifo == [] then s
      else s.(rxFifo := s.rxFifo[1..], delivered := s.delivered + [s.rxFifo[0]], guest := PoppedRx)
    case PostTxfull => s.(txfull := s.txfull + 1, guest := Idle)
    case PostRxempty => s.(rxempty := s.rxempty + 1, guest := Idle)
    case WaitTxfull => s.(txfull := s.txfull - 1, transmitter := Granted)
    case PopTx =>
      if s.txFifo == [] then s.(popEmpty := true)
      else s.(txFifo := s.txFifo[1..], transmitter := Holding(s.txFifo[0]))
    case WriteOut => s.(sent := s.sent + [s.transmitter.byte], transmitter := Waiting)
    case WaitRxempty(b) => s.(rxempty := s.rxempty - 1, receiver := Reserved(b))
    case PushRx => s.(rxFifo := s.rxFifo + [s.receiver.byte], received := s.received + [s.receiver.byte], receiver := Free)
  }

  // ---------------------------------------------------------------- what every interleaving keeps

  function Count(b: bool): nat { if b then 1 else 0 }

  function Held(t: Transmitter): seq<Byte> { if t.Holding? then [t.byte] else [] }

  /** Each semaphore plus the operations in flight accounts exactly for its queue. */
  predicate Accounted(s: State) {
    && s.txfull + Count(s.guest == PushedTx) + Count(s.transmitter == Granted) == |s.txFifo|
    && s.rxempty + Count(s.guest == PoppedRx) + Count(s.receiver.Reserved?) + |s.rxFifo| == DEPTH
  }

  /** No byte is lost, invented or reordered. */
  predicate InOrder(s: State) {
    && s.accepted == s.sent + Held(s.transmitter) + s.txFifo
    && s.received == s.delivered + s.rxFifo
  }

  predicate Inv(s: State) {
    Accounted(s) && InOrder(s) && |s.txFifo| <= DEPTH && !s.popEmpty
  }

  predicate ConcernsTx(a: Action) { a.WriteTxdata? || a.PostTxfull? || a.WaitTxfull? || a.PopTx? || a.WriteOut? }

  lemma {:induction false} TxStepKeepsInv(s: State, a: Action)
    requires Inv(s) && Enabled(s, a) && ConcernsTx(a)
    ensures Inv(Next(s, a))
  {
    if a.PopTx? {
      assert s.txFifo == [s.txFifo[0]] + s.txFifo[1..];
    }
  }

  lemma {:induction false} RxStepKeepsInv(s: State, a: Action)
    requires Inv(s) && Enabled(s, a) && !ConcernsTx(a)
    ensures Inv(Next(s, a))
  {
    if a.ReadRxdata? && s.rxFifo != [] {
      assert s.rxFifo == [s.rxFifo[0]] + s.rxFifo[1..];
    }
  }

  lemma {:induction false} StepKeepsInv(s: State, a: Action)
    requires Inv(s) && Enabled(s, a)
    ensures Inv(Next(s, a))
  {
    if ConcernsTx(a) {
      TxStepKeepsInv(s, a);
    } else {
      RxStepKeepsInv(s, a);
    }
  }

  ghost predicate StepAt(states: seq<State>, actions: seq<Action>, k: nat)
    requires k < |actions| && |states| == |actions| + 1
  {
    Enabled(states[k], actions[k]) && states[k + 1] == Next(states[k], actions[k])
  }

  ghost predicate IsRun(states: seq<State>, actions: seq<Action>) {
    && |states| == |actions| + 1
    && states[0] == INIT
    && forall k: nat | k < |actions| :: StepAt(states, actions, k)
  }

  lemma {:induction false} RunKeepsInv(states: seq<State>, actions: seq<Action>, n: nat)
    requires IsRun(states, actions) && n <= |actions|
    ensures Inv(states[n])
  {
    if n > 0 {
      RunKeepsInv(states, actions, n - 1);
      assert StepAt(states, actions, n - 1);
      StepKeepsInv(states[n - 1], actions[n - 1]);
    }
  }

  /** In every interleaving the transmit thread never pops an empty queue, neither queue exceeds its eight entries, and
      both directions deliver exactly the accepted bytes in order. */
  lemma {:induction false} QueuesAreSafe(states: seq<State>, actions: seq<Action>, n: nat)
    requires IsRun(states, actions) && n <= |actions|
    ensures var s := states[n];
            && !s.popEmpty
            && (s.transmitter == Granted ==> s.txFifo != [])
            && |s.txFifo| <= 8 && |s.rxFifo| <= 8
            && (s.receiver.Reserved? ==> |s.rxFifo| < 8)
            && s.sent <= s.accepted && s.delivered <= s.received
            && s.accepted == s.sent + Held(s.transmitter) + s.txFifo
            && s.received == s.delivered + s.rxFifo
  {
    RunKeepsInv(states, actions, n);
  }

  /** A byte written to a queue with room is accepted as it is, and one written to a full queue is not. */
  lemma {:induction false} AcceptsBytes(s: State, v: nat)
    requires Enabled(s, WriteTxdata(v)) && v < 256
    ensures Next(s, WriteTxdata(v)).accepted == if |s.txFifo| < 8 then s.accepted + [v] else s.accepted
    ensures Next(s, WriteTxdata(v)).txFifo == if |s.txFifo| < 8 then s.txFifo + [v] else s.txFifo
  {
  }

  /** No wake-up is lost: when the guest callback is over, a transmitter that waits has nothing to send, and a receiver
      that waits faces a full queue. */
  lemma {:induction false} NoLostWakeup(states: seq<State>, actions: seq<Action>, n: nat)
    requires IsRun(states, actions) && n <= |actions| && states[n].guest == Idle
    ensures var s := states[n];
            && (s.transmitter == Waiting ==> (Enabled(s, WaitTxfull) <==> s.txFifo != []))
            && (s.receiver == Free ==> forall b: Byte :: Enabled(s, WaitRxempty(b)) <==> |s.rxFifo| < DEPTH)
  {
    RunKeepsInv(states, actions, n);
  }

  // ---------------------------------------------------------------- the object

  class AbstractUart {
    var txFifo: seq<Byte>
    var txfull: nat
    var rxFifo: seq<Byte>
    var rxempty: nat

    constructor ()
      ensures txFifo == [] && txfull == 0 && rxFifo == [] && rxempty == DEPTH
    {
      txFifo, txfull, rxFifo, rxempty := [], 0, [], DEPTH;
    }

    /** The data a state machine state shares with the object. */
    ghost predicate Shows(s: State)
      reads this
    {
      s.txFifo == txFifo && s.txfull == txfull && s.rxFifo == rxFifo && s.rxempty == rxempty
    }

    /** Write of txdata: a full queue ignores it; otherwise WriteTxdata and PostTxfull. */
    method WriteTransmitData(value: nat, ghost s: State)
      requires Shows(s) && s.guest == Idle
      modifies this`txFifo, this`txfull
      ensures var s1 := Next(s, WriteTxdata(value));
              Shows(if s1.guest == PushedTx then Next(s1, PostTxfull) else s1)
    {
      if |txFifo| >= DEPTH {
        return;
      }
      txFifo := txFifo + [value % 256];
      txfull := txfull + 1;
    }

    /** Read of rxdata: bit 31 alone when empty, else the oldest byte; ReadRxdata and PostRxempty. */
    method ReadReceiveData(ghost s: State) returns (rxdata: nat)
      requires Shows(s) && s.guest == Idle
      modifies this`rxFifo, this`rxempty
      ensures rxdata == if old(rxFifo) == [] then 0x8000_0000 else old(rxFifo)[0]
      ensures var s1 := Next(s, ReadRxdata);
              Shows(if s1.guest == PoppedRx then Next(s1, PostRxempty) else s1)
    {
      if rxFifo == [] {
        rxdata := 0x8000_0000;
      } else {
        rxdata := rxFifo[0];
        rxFifo := rxFifo[1..];
        rxempty := rxempty + 1;
      }
    }

    /** The transmit thread's turn after a successful wait: the accounting makes the pop defined. */
    method TransmitOne(ghost s: State) returns (data: Byte)
      requires Shows(s) && Inv(s) && s.transmitter == Granted
      modifies this`txFifo
      ensures Shows(Next(s, PopTx)) && Next(s, PopTx).transmitter == Holding(data)
    {
      data := txFifo[0];
      txFifo := txFifo[1..];
    }

    /** rxpush after a successful wait. */
    method ReceiveOne(data: Byte, ghost s: State)
      requires Shows(s) && s.receiver == Reserved(data)
      modifies this`rxFifo
      ensures Shows(Next(s, PushRx))
    {
      rxFifo := rxFifo + [data];
    }
  }
}
