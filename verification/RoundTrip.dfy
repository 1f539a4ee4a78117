/** The round trip the repository's own tests make with one fixed payload - send, finish, read to
    the end - is available for every payload and every limit that covers it. */
module RoundTrip {
  import opened Prelude
  import opened FifoLock
  import opened Pipe
  import Tx = SendHalf
  import Rx = RecvHalf
  import SendProgress

  function LiftTx(run: seq<Tx.Event>): seq<Event> {
    if run == [] then [] else [AtSender(run[0])] + LiftTx(run[1..])
  }

  function LiftRx(run: seq<Rx.Event>): seq<Event> {
    if run == [] then [] else [AtReceiver(run[0])] + LiftRx(run[1..])
  }

  /** Whatever the sender alone can do, it can do in the two-party system. */
  lemma {:induction false} SenderAlone(p: State, run: seq<Tx.Event>)
    requires Tx.Legal(p.tx, run) && forall e :: e in run ==> TxLocal(e)
    ensures Legal(p, LiftTx(run)) && Exec(p, LiftTx(run)) == p.(tx := Tx.Exec(p.tx, run))
    decreases |run|
  {
    if run != [] {
      assert run[0] in run && forall e :: e in run[1..] ==> e in run;
      assert LiftTx(run)[1..] == LiftTx(run[1..]);
      SenderAlone(p.(tx := Tx.Apply(p.tx, run[0])), run[1..]);
    }
  }

  lemma {:induction false} ReceiverAlone(p: State, run: seq<Rx.Event>)
    requires Rx.Legal(p.rx, run) && forall e :: e in run ==> RxLocal(e)
    ensures Legal(p, LiftRx(run)) && Exec(p, LiftRx(run)) == p.(rx := Rx.Exec(p.rx, run))
    decreases |run|
  {
    if run != [] {
      assert run[0] in run && forall e :: e in run[1..] ==> e in run;
      assert LiftRx(run)[1..] == LiftRx(run[1..]);
      ReceiverAlone(p.(rx := Rx.Apply(p.rx, run[0])), run[1..]);
    }
  }

  /** The holder of a fresh half writes all of its data, in one chunk if there is any, once it
      has the credit. */
  lemma WriteWhole(s: Tx.State, data: Bytes) returns (run: seq<Tx.Event>)
    requires s.calls == [Tx.Call(Tx.SendBytes(data), Tx.Holding, 0)] && s.lock.holder == Some(0)
    requires Tx.Writable(s.half) && s.half.written == []
    ensures Tx.Legal(s, run) && forall e :: e in run ==> TxLocal(e)
    ensures var t := Tx.Exec(s, run);
      && t.calls == [Tx.Call(Tx.SendBytes(data), Tx.Holding, |data|)] && t.lock == s.lock
      && t.half.written == data && Tx.Writable(t.half)
  {
    if data == [] {
      run := [];
    } else {
      var t := Tx.Apply(s, Tx.Credit(|data|));
      Tx.LegalAppend(s, [Tx.Credit(|data|)], [Tx.Write(|data|)]);
      run := [Tx.Credit(|data|)] + [Tx.Write(|data|)];
      assert t.half.written + data[0..|data|] == data;
    }
  }

  /** One `send_bytes` on a fresh half. */
  lemma SendOne(data: Bytes) returns (run: seq<Tx.Event>)
    ensures Tx.Legal(Tx.INIT, run) && forall e :: e in run ==> TxLocal(e)
    ensures var s := Tx.Exec(Tx.INIT, run);
      && s.lock == Lock(None, [], [0])
      && s.calls == [Tx.Call(Tx.SendBytes(data), Tx.Done(Tx.Ok(None)), |data|)]
      && s.half.written == data && Tx.Open(s.half) && s.half.peerStop.None? && !s.half.lost
  {
    var s1 := Tx.Apply(Tx.INIT, Tx.Invoke(Tx.SendBytes(data)));
    var s2 := Tx.Apply(s1, Tx.Event.Grant);
    assert s2.calls == [Tx.Call(Tx.SendBytes(data), Tx.Holding, 0)];
    var write := WriteWhole(s2, data);
    Tx.LegalAppend(s2, write, [Tx.Complete]);
    Tx.LegalAppend(s1, [Tx.Event.Grant], write + [Tx.Complete]);
    Tx.LegalAppend(Tx.INIT, [Tx.Invoke(Tx.SendBytes(data))], [Tx.Event.Grant] + (write + [Tx.Complete]));
    run := [Tx.Invoke(Tx.SendBytes(data))] + ([Tx.Event.Grant] + (write + [Tx.Complete]));
  }

  lemma TakeWhole(s: Rx.State, max: nat) returns (run: seq<Rx.Event>)
    requires s.calls == [Rx.Call(Rx.ReadToEnd(max), Rx.Holding, [])] && s.lock.holder == Some(0)
    requires Rx.Intact(s.half) && s.half.fin && s.half.taken == 0 && |s.half.feed| <= max
    ensures Rx.Legal(s, run) && forall e :: e in run ==> RxLocal(e)
    ensures var t := Rx.Exec(s, run);
      && t.calls == [Rx.Call(Rx.ReadToEnd(max), Rx.Holding, s.half.feed)] && t.lock == s.lock
      && Rx.Intact(t.half) && Rx.AtEnd(t.half)
  {
    if s.half.feed == [] {
      run := [];
    } else {
      run := [Rx.Take(|s.half.feed|)];
      var t := Rx.Apply(s, run[0]);
      assert s.calls[0].got + s.half.feed[0..|s.half.feed|] == s.half.feed;
      assert run[1..] == [] && Rx.Exec(s, run) == t;
    }
  }

  /** One `read_to_end` on a half to which everything has been delivered. */
  lemma ReadAll(s: Rx.State, max: nat) returns (run: seq<Rx.Event>)
    requires s == Rx.INIT.(half := Rx.INIT.half.(feed := s.half.feed, fin := true)) && |s.half.feed| <= max
    ensures Rx.Legal(s, run) && forall e :: e in run ==> RxLocal(e)
    ensures Rx.Exec(s, run).calls == [Rx.Call(Rx.ReadToEnd(max), Rx.Done(Rx.Ok(Some(s.half.feed))), s.half.feed)]
  {
    var s1 := Rx.Apply(s, Rx.Invoke(Rx.ReadToEnd(max)));
    var s2 := Rx.Apply(s1, Rx.Event.Grant);
    assert s2.calls == [Rx.Call(Rx.ReadToEnd(max), Rx.Holding, [])];
    var take := TakeWhole(s2, max);
    Rx.LegalAppend(s2, take, [Rx.Return]);
    Rx.LegalAppend(s1, [Rx.Event.Grant], take + [Rx.Return]);
    Rx.LegalAppend(s, [Rx.Invoke(Rx.ReadToEnd(max))], [Rx.Event.Grant] + (take + [Rx.Return]));
    run := [Rx.Invoke(Rx.ReadToEnd(max))] + ([Rx.Event.Grant] + (take + [Rx.Return]));
  }

  /** The network carries a finished stream across. */
  lemma Across(p: State) returns (run: seq<Event>)
    requires p.rx == Rx.INIT && p.tx.half.sending == Tx.DataSent
    ensures Legal(p, run)
    ensures Exec(p, run) == p.(rx := Rx.INIT.(half := Rx.INIT.half.(feed := p.tx.half.written, fin := true)))
  {
    var data := p.tx.half.written;
    var carry := if data == [] then [] else [Deliver(|data|)];
    assert data[0..|data|] == data && [] + data == data;
    assert Legal(p, carry);
    assert Exec(p, carry) == p.(rx := Rx.INIT.(half := Rx.INIT.half.(feed := data)));
    LegalAppend(p, carry, [DeliverFin]);
    run := carry + [DeliverFin];
  }

  /** For every payload and every limit of at least its length there is a run in which the
      sender sends it, finishes, and the receiver's one `read_to_end` returns exactly it. */
  lemma EveryPayloadRoundTrips(data: Bytes, max: nat) returns (run: seq<Event>)
    requires |data| <= max
    ensures Legal(INIT, run)
    ensures Exec(INIT, run).rx.calls == [Rx.Call(Rx.ReadToEnd(max), Rx.Done(Rx.Ok(Some(data))), data)]
    ensures forall c :: c in Exec(INIT, run).tx.calls ==> c.phase == Tx.Done(Tx.Ok(None))
  {
    var sending := SendOne(data);
    SenderAlone(INIT, sending);
    var p1 := Exec(INIT, LiftTx(sending));
    var finishing := SendProgress.FinishIdle(p1.tx);
    SenderAlone(p1, finishing);
    var p2 := Exec(p1, LiftTx(finishing));
    var carrying := Across(p2);
    var p3 := Exec(p2, carrying);
    var reading := ReadAll(p3.rx, max);
    ReceiverAlone(p3, reading);
    LegalAppend(p2, carrying, LiftRx(reading));
    LegalAppend(p1, LiftTx(finishing), carrying + LiftRx(reading));
    LegalAppend(INIT, LiftTx(sending), LiftTx(finishing) + (carrying + LiftRx(reading)));
    run := LiftTx(sending) + (LiftTx(finishing) + (carrying + LiftRx(reading)));
  }
}
