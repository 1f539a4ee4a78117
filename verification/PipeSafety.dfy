/** What one side of a stream does reaches the other: stops, acknowledgements, resets and ends. */
module PipeSafety {
  import opened Prelude
  import opened FifoLock
  import opened Pipe
  import Tx = SendHalf
  import Rx = RecvHalf
  import SendAnswers
  import RecvAnswers

  /** What an event is at the sender: its own step, or what the network brings it. */
  function TxOf(p: State, e: Event): Option<Tx.Event>
    requires Enabled(p, e)
  {
    match e
    case AtSender(te) => Some(te)
    case DeliverStop => Some(Tx.PeerStop(p.rx.half.stop.value))
    case Ack => Some(Tx.PeerAck)
    case _ => None
  }

  function RxOf(p: State, e: Event): Option<Rx.Event>
    requires Enabled(p, e)
  {
    match e
    case AtReceiver(re) => Some(re)
    case Deliver(k) => Some(Rx.Arrive(Carried(p, k)))
    case DeliverFin => Some(Rx.FinArrive)
    case DeliverReset => Some(Rx.RstArrive)
    case _ => None
  }

  function AtTx(p: State, run: seq<Event>): seq<Tx.Event>
    requires Legal(p, run)
    decreases |run|
  {
    if run == [] then []
    else
      var rest := AtTx(Apply(p, run[0]), run[1..]);
      match TxOf(p, run[0])
      case None => rest
      case Some(te) => [te] + rest
  }

  function AtRx(p: State, run: seq<Event>): seq<Rx.Event>
    requires Legal(p, run)
    decreases |run|
  {
    if run == [] then []
    else
      var rest := AtRx(Apply(p, run[0]), run[1..]);
      match RxOf(p, run[0])
      case None => rest
      case Some(re) => [re] + rest
  }

  lemma StepProjects(p: State, e: Event)
    requires Enabled(p, e)
    ensures match TxOf(p, e)
      case None => Apply(p, e).tx == p.tx
      case Some(te) => Tx.Enabled(p.tx, te) && Apply(p, e).tx == Tx.Apply(p.tx, te)
    ensures match RxOf(p, e)
      case None => Apply(p, e).rx == p.rx
      case Some(re) => Rx.Enabled(p.rx, re) && Apply(p, e).rx == Rx.Apply(p.rx, re)
  {
  }

  /** Every two-party run is a run of the send half, so all that holds of one holds here. */
  lemma {:induction false} SenderProjects(p: State, run: seq<Event>)
    requires Legal(p, run)
    ensures Tx.Legal(p.tx, AtTx(p, run)) && Exec(p, run).tx == Tx.Exec(p.tx, AtTx(p, run))
    decreases |run|
  {
    if run != [] {
      StepProjects(p, run[0]);
      SenderProjects(Apply(p, run[0]), run[1..]);
      if TxOf(p, run[0]).Some? {
        assert AtTx(p, run)[1..] == AtTx(Apply(p, run[0]), run[1..]);
      }
    }
  }

  lemma {:induction false} ReceiverProjects(p: State, run: seq<Event>)
    requires Legal(p, run)
    ensures Rx.Legal(p.rx, AtRx(p, run)) && Exec(p, run).rx == Rx.Exec(p.rx, AtRx(p, run))
    decreases |run|
  {
    if run != [] {
      StepProjects(p, run[0]);
      ReceiverProjects(Apply(p, run[0]), run[1..]);
      if RxOf(p, run[0]).Some? {
        assert AtRx(p, run)[1..] == AtRx(Apply(p, run[0]), run[1..]);
      }
    }
  }

  /** Where an event leads from a reachable state is a reachable state like any other. */
  lemma AfterEvent(past: seq<Event>, e: Event, run: seq<Event>)
    requires Legal(INIT, past) && Enabled(Exec(INIT, past), e) && Legal(Apply(Exec(INIT, past), e), run)
    ensures Inv(Exec(INIT, past)) && Inv(Apply(Exec(INIT, past), e)) && Inv(Exec(Apply(Exec(INIT, past), e), run))
  {
    RunKeepsInv(INIT, past);
    StepKeepsInv(Exec(INIT, past), e);
    RunKeepsInv(Apply(Exec(INIT, past), e), run);
  }

  /** Call i of the sender, a `stopped`, waits and can be told the code, has been, or was dropped. */
  predicate HearsCode(p: State, i: nat, code: nat) {
    && i < |p.tx.calls|
    && match p.tx.calls[i].phase
       case Awaiting =>
         && Enabled(p, AtSender(Tx.Resolve(i)))
         && |Apply(p, AtSender(Tx.Resolve(i))).tx.calls| == |p.tx.calls|
         && Apply(p, AtSender(Tx.Resolve(i))).tx.calls[i].phase == Tx.Done(Tx.Ok(Some(code)))
       case Done(outcome) => outcome == Tx.Ok(Some(code)) || outcome == Tx.Cancelled
       case _ => false
  }

  lemma HearsCodeIf(p: State, i: nat, code: nat)
    requires Tx.Inv(p.tx) && i < |p.tx.calls| && p.tx.half.peerStop == Some(code)
    requires SendAnswers.Waits(p.tx, i) || p.tx.calls[i].phase == Tx.Done(Tx.Ok(Some(code))) || p.tx.calls[i].phase == Tx.Done(Tx.Cancelled)
    ensures HearsCode(p, i, code)
  {
    if p.tx.calls[i].phase == Tx.Awaiting {
      SendAnswers.CodeStep(p.tx, Tx.Resolve(i), i, code);
    }
  }

  lemma StoppedRun(u: State, i: nat, code: nat, run: seq<Event>)
    requires Inv(u) && Legal(u, run) && Inv(Exec(u, run)) && SendAnswers.Waits(u.tx, i) && u.tx.half.peerStop == Some(code)
    ensures HearsCode(Exec(u, run), i, code)
  {
    SenderProjects(u, run);
    SendAnswers.CodeRun(u.tx, AtTx(u, run), i, code);
    HearsCodeIf(Exec(u, run), i, code);
  }

  /** Once the receiver's stop is delivered, over every run: a `stopped` that waits can return, and
      whether now or later returns the receiver's own code, unless its caller drops it. */
  lemma StopReachesTheSender(past: seq<Event>, i: nat, run: seq<Event>)
    requires Legal(INIT, past) && Enabled(Exec(INIT, past), DeliverStop) && SendAnswers.Waits(Exec(INIT, past).tx, i)
    requires Legal(Apply(Exec(INIT, past), DeliverStop), run)
    ensures HearsCode(Exec(Apply(Exec(INIT, past), DeliverStop), run), i, Exec(INIT, past).rx.half.stop.value)
  {
    AfterEvent(past, DeliverStop, run);
    StoppedRun(Apply(Exec(INIT, past), DeliverStop), i, Exec(INIT, past).rx.half.stop.value, run);
  }

  lemma {:induction false} AcknowledgedStays(s: Tx.State, run: seq<Tx.Event>)
    requires Tx.Legal(s, run) && SendAnswers.Acknowledged(s.half)
    ensures SendAnswers.Acknowledged(Tx.Exec(s, run).half)
    decreases |run|
  {
    if run != [] {
      AcknowledgedStays(Tx.Apply(s, run[0]), run[1..]);
    }
  }

  lemma AcknowledgedRun(u: State, run: seq<Event>, i: nat)
    requires Legal(u, run) && Inv(Exec(u, run)) && SendAnswers.Acknowledged(u.tx.half) && SendAnswers.Waits(Exec(u, run).tx, i)
    ensures var t := Exec(u, run);
      && Enabled(t, AtSender(Tx.Resolve(i)))
      && i < |Apply(t, AtSender(Tx.Resolve(i))).tx.calls|
      && Apply(t, AtSender(Tx.Resolve(i))).tx.calls[i].phase == Tx.Done(Tx.Ok(t.tx.half.peerStop))
  {
    SenderProjects(u, run);
    AcknowledgedStays(u.tx, AtTx(u, run));
    SendAnswers.StepEnds(Exec(u, run).tx, Tx.Resolve(i), i);
  }

  /** Once the receiver's acknowledgement is back, over every run: a `stopped` that waits can return,
      with None if the receiver has not stopped the stream as well and with its code if it has. */
  lemma AcknowledgementReachesTheSender(past: seq<Event>, run: seq<Event>, i: nat)
    requires Legal(INIT, past) && Enabled(Exec(INIT, past), Ack) && Legal(Apply(Exec(INIT, past), Ack), run)
    requires SendAnswers.Waits(Exec(Apply(Exec(INIT, past), Ack), run).tx, i)
    ensures var t := Exec(Apply(Exec(INIT, past), Ack), run);
      && Enabled(t, AtSender(Tx.Resolve(i)))
      && i < |Apply(t, AtSender(Tx.Resolve(i))).tx.calls|
      && Apply(t, AtSender(Tx.Resolve(i))).tx.calls[i].phase == Tx.Done(Tx.Ok(t.tx.half.peerStop))
      && (t.tx.half.peerStop.Some? ==> t.tx.half.peerStop == t.rx.half.stop)
  {
    AfterEvent(past, Ack, run);
    AcknowledgedRun(Apply(Exec(INIT, past), Ack), run, i);
  }

  /** Once the sender's reset is delivered, over every run: no reader is handed another byte, and
      every read with something left to do that ends fails or was dropped. */
  lemma ResetReachesTheReceiver(past: seq<Event>, run: seq<Event>, i: nat)
    requires Legal(INIT, past) && Enabled(Exec(INIT, past), DeliverReset) && Legal(Apply(Exec(INIT, past), DeliverReset), run)
    ensures var p := Exec(INIT, past); var t := Exec(Apply(p, DeliverReset), run);
      && t.rx.half.taken == p.rx.half.taken
      && (!RecvAnswers.Over(p.rx, i) && RecvAnswers.Over(t.rx, i) ==>
            var c := t.rx.calls[i];
            (c.op.Recv? && c.op.max > 0) || (c.op.ReadExact? && |c.got| < c.op.n) || c.op.ReadToEnd? ==>
              c.phase == Rx.Done(Rx.Failed) || c.phase == Rx.Done(Rx.Cancelled))
  {
    var p := Exec(INIT, past);
    var u := Apply(p, DeliverReset);
    AfterEvent(past, DeliverReset, run);
    ReceiverProjects(u, run);
    RecvAnswers.BrokenHalfHandsOutNothing(u.rx, AtRx(u, run), i);
  }

  lemma {:induction false} FinStays(s: Rx.State, run: seq<Rx.Event>)
    requires Rx.Legal(s, run) && s.half.fin
    ensures Rx.Exec(s, run).half.fin && Rx.Exec(s, run).half.feed == s.half.feed
    decreases |run|
  {
    if run != [] {
      FinStays(Rx.Apply(s, run[0]), run[1..]);
    }
  }

  /** The reader that holds the lock has everything before it and nothing to come. */
  predicate AtTheEnd(p: State, i: nat) {
    && p.rx.lock.holder == Some(i) && i < |p.rx.calls| && Rx.Intact(p.rx.half) && p.rx.half.taken == |p.tx.half.written|
    && (p.rx.calls[i].op.ReadToEnd? || (p.rx.calls[i].op.Recv? && p.rx.calls[i].op.max > 0))
  }

  lemma EndIsTold(p: State, i: nat)
    requires Inv(p) && p.rx.half.fin && AtTheEnd(p, i)
    ensures Enabled(p, AtReceiver(Rx.Return)) && !Rx.Enabled(p.rx, Rx.Fail)
  {
    Rx.LockFacts(p.rx);
  }

  lemma FinishedRun(u: State, run: seq<Event>)
    requires Legal(u, run) && u.rx.half.fin
    ensures Exec(u, run).rx.half.fin && Exec(u, run).rx.half.feed == u.rx.half.feed
  {
    ReceiverProjects(u, run);
    FinStays(u.rx, AtRx(u, run));
  }

  /** Once the sender's end is delivered, over every run: the receiver has every byte ever written,
      and a `recv` or `read_to_end` that holds the lock of an intact half with all of them read is
      told that this is the end. */
  lemma EndReachesTheReceiver(past: seq<Event>, run: seq<Event>, i: nat)
    requires Legal(INIT, past) && Enabled(Exec(INIT, past), DeliverFin) && Legal(Apply(Exec(INIT, past), DeliverFin), run)
    ensures var t := Exec(Apply(Exec(INIT, past), DeliverFin), run);
      && t.rx.half.feed == t.tx.half.written == Exec(INIT, past).tx.half.written
      && (AtTheEnd(t, i) ==> Enabled(t, AtReceiver(Rx.Return)) && !Rx.Enabled(t.rx, Rx.Fail))
  {
    AfterEvent(past, DeliverFin, run);
    FinishedRun(Apply(Exec(INIT, past), DeliverFin), run);
    if AtTheEnd(Exec(Apply(Exec(INIT, past), DeliverFin), run), i) {
      EndIsTold(Exec(Apply(Exec(INIT, past), DeliverFin), run), i);
    }
  }
}
