/** Two endpoints of one direction of a stream: the sender's send half, the receiver's receive
    half, and a network that carries bytes, end, reset and stop between them in order. */
module Pipe {
  import opened Prelude
  import opened FifoLock
  import Tx = SendHalf
  import Rx = RecvHalf

  datatype State = State(tx: Tx.State, rx: Rx.State)

  datatype Event =
    | AtSender(tx: Tx.Event)
    | AtReceiver(rx: Rx.Event)
    | Deliver(k: nat)
    | DeliverFin
    | DeliverReset
    | DeliverStop
    | Ack

  const INIT := State(Tx.INIT, Rx.INIT)

  /** Steps an endpoint takes by itself, as opposed to those the network brings to it from the
      other. Credit counts as local: it depends on the sender's own buffers and congestion window
      as well as on the peer. */
  predicate TxLocal(e: Tx.Event) {
    !e.PeerStop? && !e.PeerAck?
  }

  predicate RxLocal(e: Rx.Event) {
    !e.Arrive? && !e.FinArrive? && !e.RstArrive?
  }

  predicate Enabled(p: State, e: Event) {
    match e
    case AtSender(te) => TxLocal(te) && Tx.Enabled(p.tx, te)
    case AtReceiver(re) => RxLocal(re) && Rx.Enabled(p.rx, re)
    case Deliver(k) =>
      1 <= k <= |p.tx.half.written| - |p.rx.half.feed| && !p.rx.half.fin && !p.rx.half.rst && !p.rx.half.lost
    case DeliverFin =>
      p.tx.half.sending == Tx.DataSent && |p.rx.half.feed| == |p.tx.half.written| && Rx.Enabled(p.rx, Rx.FinArrive)
    case DeliverReset => p.tx.half.sending == Tx.ResetSent && Rx.Enabled(p.rx, Rx.RstArrive)
    case DeliverStop => p.rx.half.stop.Some? && p.tx.half.peerStop.None? && !p.tx.half.lost
    case Ack =>
      && !p.tx.half.lost
      && (|| (p.tx.half.sending == Tx.DataSent && p.rx.half.fin)
          || (p.tx.half.sending == Tx.ResetSent && (p.rx.half.rst || p.rx.half.fin)))
  }

  function Carried(p: State, k: nat): Bytes
    requires |p.rx.half.feed| + k <= |p.tx.half.written|
  {
    p.tx.half.written[|p.rx.half.feed|..|p.rx.half.feed| + k]
  }

  function Apply(p: State, e: Event): State
    requires Enabled(p, e)
  {
    match e
    case AtSender(te) => p.(tx := Tx.Apply(p.tx, te))
    case AtReceiver(re) => p.(rx := Rx.Apply(p.rx, re))
    case Deliver(k) => p.(rx := Rx.Apply(p.rx, Rx.Arrive(Carried(p, k))))
    case DeliverFin => p.(rx := Rx.Apply(p.rx, Rx.FinArrive))
    case DeliverReset => p.(rx := Rx.Apply(p.rx, Rx.RstArrive))
    case DeliverStop => p.(tx := Tx.Apply(p.tx, Tx.PeerStop(p.rx.half.stop.value)))
    case Ack => p.(tx := Tx.Apply(p.tx, Tx.PeerAck))
  }

  predicate Legal(p: State, run: seq<Event>)
    decreases |run|
  {
    run == [] || (Enabled(p, run[0]) && Legal(Apply(p, run[0]), run[1..]))
  }

  function Exec(p: State, run: seq<Event>): State
    requires Legal(p, run)
    decreases |run|
  {
    if run == [] then p else Exec(Apply(p, run[0]), run[1..])
  }

  lemma {:induction false} LegalAppend(p: State, first: seq<Event>, second: seq<Event>)
    requires Legal(p, first) && Legal(Exec(p, first), second)
    ensures Legal(p, first + second) && Exec(p, first + second) == Exec(Exec(p, first), second)
    decreases |first|
  {
    if first == [] {
      assert first + second == second;
    } else {
      assert (first + second)[1..] == first[1..] + second;
      LegalAppend(Apply(p, first[0]), first[1..], second);
    }
  }

  // ---------------------------------------------------------------- invariant

  /** Once a `read_to_end` has returned, no later call takes a byte. */
  ghost predicate NothingAfterTheEnd(rx: Rx.State) {
    forall i, j :: 0 <= i < j < |rx.calls| && rx.calls[i].op.ReadToEnd? && rx.calls[i].phase.Done? && rx.calls[i].phase.outcome.Ok? ==>
      rx.calls[j].got == []
  }

  ghost predicate Inv(p: State) {
    && Tx.Inv(p.tx)
    && Rx.Inv(p.rx)
    && p.rx.half.feed <= p.tx.half.written
    && (p.rx.half.fin ==> !Tx.Open(p.tx.half) && p.rx.half.feed == p.tx.half.written)
    && NothingAfterTheEnd(p.rx)
    && (p.tx.half.peerStop.Some? ==> p.tx.half.peerStop == p.rx.half.stop)
    && (p.tx.half.sending == Tx.DataRecvd ==> p.rx.half.fin)
    && (p.tx.half.sending == Tx.ResetRecvd ==> p.rx.half.rst || p.rx.half.fin)
  }

  lemma KeepsNothingAfterTheEnd(rx: Rx.State, e: Rx.Event)
    requires Rx.Inv(rx) && Rx.Enabled(rx, e) && NothingAfterTheEnd(rx)
    ensures NothingAfterTheEnd(Rx.Apply(rx, e))
  {
    var t := Rx.Apply(rx, e);
    Rx.LockFacts(rx);
    forall i, j | 0 <= i < j < |t.calls| && t.calls[i].op.ReadToEnd? && t.calls[i].phase.Done? && t.calls[i].phase.outcome.Ok?
      ensures t.calls[j].got == []
    {
      if j < |rx.calls| {
        assert Rx.CallInv(rx, i);
        assert Rx.CallInv(rx, j);
      }
    }
  }

  /** What one step can do to what the sender's transport knows. */
  lemma TxHalfStep(s: Tx.State, te: Tx.Event)
    requires Tx.Enabled(s, te)
    ensures var h := s.half; var k := Tx.Apply(s, te).half;
      && h.written <= k.written
      && (!Tx.Open(h) ==> !Tx.Open(k) && k.written == h.written)
      && (k.peerStop == h.peerStop || (te.PeerStop? && k.peerStop == Some(te.code)))
      && (k.sending == Tx.DataRecvd ==> h.sending == Tx.DataRecvd || (te.PeerAck? && h.sending == Tx.DataSent))
      && (k.sending == Tx.ResetRecvd ==> h.sending == Tx.ResetRecvd || (te.PeerAck? && h.sending == Tx.ResetSent))
  {
  }

  lemma TxStep(p: State, te: Tx.Event)
    requires Inv(p) && Tx.Enabled(p.tx, te)
    requires te.PeerStop? ==> p.rx.half.stop == Some(te.code)
    requires te.PeerAck? ==> Enabled(p, Ack)
    ensures Inv(p.(tx := Tx.Apply(p.tx, te)))
  {
    Tx.StepKeepsInv(p.tx, te);
    TxHalfStep(p.tx, te);
  }

  lemma RxStep(p: State, re: Rx.Event)
    requires Inv(p) && Rx.Enabled(p.rx, re)
    requires re.Arrive? ==> p.rx.half.feed + re.bytes <= p.tx.half.written
    requires re.FinArrive? ==> !Tx.Open(p.tx.half) && p.rx.half.feed == p.tx.half.written
    ensures Inv(p.(rx := Rx.Apply(p.rx, re)))
  {
    Rx.StepKeepsInv(p.rx, re);
    KeepsNothingAfterTheEnd(p.rx, re);
  }

  lemma StepKeepsInv(p: State, e: Event)
    requires Inv(p) && Enabled(p, e)
    ensures Inv(Apply(p, e))
  {
    match e
    case AtSender(te) => TxStep(p, te);
    case AtReceiver(re) => RxStep(p, re);
    case Deliver(k) => RxStep(p, Rx.Arrive(Carried(p, k)));
    case DeliverFin => RxStep(p, Rx.FinArrive);
    case DeliverReset => RxStep(p, Rx.RstArrive);
    case DeliverStop => TxStep(p, Tx.PeerStop(p.rx.half.stop.value));
    case Ack => TxStep(p, Tx.PeerAck);
  }

  lemma {:induction false} RunKeepsInv(p: State, run: seq<Event>)
    requires Inv(p) && Legal(p, run)
    ensures Inv(Exec(p, run))
    decreases |run|
  {
    if run != [] {
      StepKeepsInv(p, run[0]);
      RunKeepsInv(Apply(p, run[0]), run[1..]);
    }
  }

  // ------------------------------------------------------- end to end delivery

  /** The message of a call that returned Ok. */
  function Message(calls: seq<Tx.Call>, i: nat): Bytes {
    if i < |calls| && calls[i].op.SendBytes? && calls[i].phase == Tx.Done(Tx.Ok(None)) then calls[i].op.data else []
  }

  predicate NoSendFailed(calls: seq<Tx.Call>) {
    forall c :: c in calls && c.op.SendBytes? && c.phase.Done? ==> c.phase == Tx.Done(Tx.Ok(None))
  }

  lemma {:induction false} JoinedTail(part: nat -> Bytes, order: seq<nat>, q: nat)
    requires q < |order| && forall r :: q < r < |order| ==> part(order[r]) == []
    ensures Joined(part, order) == Joined(part, order[..q]) + part(order[q])
  {
    if q == |order| - 1 {
      assert order[..q] == Front(order);
    } else {
      assert part(order[|order| - 1]) == [];
      JoinedTail(part, Front(order), q);
      assert Front(order)[..q] == order[..q];
    }
  }

  /** When a `read_to_end` returns, what it returned completes what the reads before it took to
      everything the sender ever wrote; no `send_bytes` is part-way; and if no `send_bytes`
      failed or was cancelled that is the messages of the sends that returned, whole, in the
      order the calls were made. */
  lemma ReadToEndCompletesTheMessages(run: seq<Event>, c: nat) returns (q: nat)
    requires Legal(INIT, run) && c < |Exec(INIT, run).rx.calls|
    requires var call := Exec(INIT, run).rx.calls[c]; call.op.ReadToEnd? && call.phase.Done? && call.phase.outcome.Ok?
    ensures var p := Exec(INIT, run); var call := p.rx.calls[c];
      && q < |p.rx.lock.granted| && p.rx.lock.granted[q] == c
      && call.phase.outcome.data == Some(call.got)
      && Rx.Consumed(p.rx.calls, p.rx.lock.granted[..q]) + call.got == p.tx.half.written
      && Ascending(p.tx.lock.granted)
      && (NoSendFailed(p.tx.calls) ==>
            Rx.Consumed(p.rx.calls, p.rx.lock.granted[..q]) + call.got
              == Joined((i: nat) => Message(p.tx.calls, i), p.tx.lock.granted))
  {
    var p := Exec(INIT, run);
    RunKeepsInv(INIT, run);
    assert Rx.CallInv(p.rx, c);
    q :| 0 <= q < |p.rx.lock.granted| && p.rx.lock.granted[q] == c;
    forall r | q < r < |p.rx.lock.granted|
      ensures Rx.Got(p.rx.calls, p.rx.lock.granted[r]) == []
    {
      assert p.rx.lock.granted[r] in p.rx.lock.granted;
    }
    JoinedTail((i: nat) => Rx.Got(p.rx.calls, i), p.rx.lock.granted, q);
    assert p.rx.half.feed[..p.rx.half.taken] == p.rx.half.feed;
    if NoSendFailed(p.tx.calls) {
      WrittenIsMessages(p);
    }
  }

  lemma WrittenIsMessages(p: State)
    requires Inv(p) && !Tx.Open(p.tx.half) && NoSendFailed(p.tx.calls)
    ensures p.tx.half.written == Joined((i: nat) => Message(p.tx.calls, i), p.tx.lock.granted)
  {
    var part := (i: nat) => Tx.Part(p.tx.calls, i);
    var message := (i: nat) => Message(p.tx.calls, i);
    forall i | i in p.tx.lock.granted
      ensures part(i) == message(i)
    {
      assert Tx.CallInv(p.tx, i);
      assert p.tx.calls[i] in p.tx.calls;
    }
    JoinedFrame(part, message, p.tx.lock.granted);
  }

  /** A `read_to_end` whose limit covers what is left of the stream is never too small: on an
      intact half it can only return or wait. */
  lemma LargeEnoughLimitNeverFails(run: seq<Event>, c: nat)
    requires Legal(INIT, run) && c < |Exec(INIT, run).rx.calls| && Exec(INIT, run).rx.lock.holder == Some(c)
    requires var p := Exec(INIT, run);
      && p.rx.calls[c].op.ReadToEnd? && Rx.Intact(p.rx.half) && !p.rx.half.lost
      && |p.rx.calls[c].got| + |p.tx.half.written| - p.rx.half.taken <= p.rx.calls[c].op.max
    ensures !Rx.Enabled(Exec(INIT, run).rx, Rx.Fail)
  {
    RunKeepsInv(INIT, run);
  }

  /** What `stopped` tells the sender is true of the receiver: a code is the one the receiver
      stopped with, and None on a finished stream means every byte written has arrived there. */
  lemma StoppedAnswersReflectThePeer(run: seq<Event>, i: nat)
    requires Legal(INIT, run) && i < |Exec(INIT, run).tx.calls|
    requires var c := Exec(INIT, run).tx.calls[i]; c.op.Stopped? && c.phase.Done? && c.phase.outcome.Ok?
    ensures var p := Exec(INIT, run); var code := p.tx.calls[i].phase.outcome.code;
      if code.Some? then p.rx.half.stop == code
      else p.rx.half.rst || (p.rx.half.fin && p.rx.half.feed == p.tx.half.written)
  {
    RunKeepsInv(INIT, run);
    assert Tx.CallInv(Exec(INIT, run).tx, i);
  }
}
