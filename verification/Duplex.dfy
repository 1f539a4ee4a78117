/** A bidirectional stream (`IrohStream`): a send half and a receive half, each behind its own
    lock. Nothing but the connection handle is shared between them. */
module Duplex {
  import opened Prelude
  import Tx = SendHalf
  import Rx = RecvHalf
  import SendProgress
  import RecvSafety

  datatype State = State(send: Tx.State, recv: Rx.State)

  /** A step of one half, or the loss of the one connection both halves share. */
  datatype Event = OnSend(tx: Tx.Event) | OnRecv(rx: Rx.Event) | Lose

  const INIT := State(Tx.INIT, Rx.INIT)

  /** Neither half loses the connection by itself. */
  predicate Separate(e: Event) {
    e != OnSend(Tx.Lose) && e != OnRecv(Rx.Lose)
  }

  predicate Enabled(d: State, e: Event) {
    && Separate(e)
    && match e
       case OnSend(te) => Tx.Enabled(d.send, te)
       case OnRecv(re) => Rx.Enabled(d.recv, re)
       case Lose => true
  }

  function Apply(d: State, e: Event): State
    requires Enabled(d, e)
  {
    match e
    case OnSend(te) => d.(send := Tx.Apply(d.send, te))
    case OnRecv(re) => d.(recv := Rx.Apply(d.recv, re))
    case Lose => State(Tx.Apply(d.send, Tx.Lose), Rx.Apply(d.recv, Rx.Lose))
  }

  predicate Legal(d: State, run: seq<Event>)
    decreases |run|
  {
    run == [] || (Enabled(d, run[0]) && Legal(Apply(d, run[0]), run[1..]))
  }

  function Exec(d: State, run: seq<Event>): State
    requires Legal(d, run)
    decreases |run|
  {
    if run == [] then d else Exec(Apply(d, run[0]), run[1..])
  }

  /** What each half sees of a run: its own steps, and every loss. */
  function SendPart(run: seq<Event>): seq<Tx.Event> {
    if run == [] then []
    else match run[0]
      case OnSend(te) => [te] + SendPart(run[1..])
      case OnRecv(_) => SendPart(run[1..])
      case Lose => [Tx.Lose] + SendPart(run[1..])
  }

  function RecvPart(run: seq<Event>): seq<Rx.Event> {
    if run == [] then []
    else match run[0]
      case OnSend(_) => RecvPart(run[1..])
      case OnRecv(re) => [re] + RecvPart(run[1..])
      case Lose => [Rx.Lose] + RecvPart(run[1..])
  }

  /** A sequence of steps is a run of the stream exactly when its two projections are runs of the
      two halves and the connection is only ever lost to both at once; and it leads where the
      two half-runs lead. Between losses, then, the halves interleave in every order. */
  lemma {:induction false} RunsAreInterleavings(d: State, run: seq<Event>)
    ensures Legal(d, run) <==>
      && Tx.Legal(d.send, SendPart(run)) && Rx.Legal(d.recv, RecvPart(run))
      && forall e :: e in run ==> Separate(e)
    ensures Legal(d, run) ==>
      Exec(d, run) == State(Tx.Exec(d.send, SendPart(run)), Rx.Exec(d.recv, RecvPart(run)))
    decreases |run|
  {
    if run != [] {
      assert forall e :: e in run <==> e == run[0] || e in run[1..];
      ProjectionsUnfold(run);
      if Enabled(d, run[0]) {
        RunsAreInterleavings(Apply(d, run[0]), run[1..]);
      }
    }
  }

  lemma ProjectionsUnfold(run: seq<Event>)
    requires run != []
    ensures if run[0].OnRecv? then SendPart(run) == SendPart(run[1..])
            else SendPart(run) != [] && SendPart(run)[1..] == SendPart(run[1..])
    ensures if run[0].OnSend? then RecvPart(run) == RecvPart(run[1..])
            else RecvPart(run) != [] && RecvPart(run)[1..] == RecvPart(run[1..])
  {
  }

  /** On a lost connection nothing more reaches the send half. */
  lemma SendAfterLoss(s: Tx.State, te: Tx.Event)
    requires Tx.Enabled(s, te) && s.half.lost
    ensures var h := s.half; var k := Tx.Apply(s, te).half;
      && k.lost && k.written == h.written && k.peerStop == h.peerStop && k.credit == h.credit
      && (k.sending == Tx.DataRecvd ==> h.sending == Tx.DataRecvd)
      && (k.sending == Tx.ResetRecvd ==> h.sending == Tx.ResetRecvd)
  {
  }

  lemma RecvAfterLoss(s: Rx.State, re: Rx.Event)
    requires Rx.Enabled(s, re) && s.half.lost
    ensures var h := s.half; var k := Rx.Apply(s, re).half;
      k.lost && k.feed == h.feed && k.fin == h.fin && k.rst == h.rst
  {
  }

  lemma OnlyLoseLoses(d: State, e: Event)
    requires Enabled(d, e) && !d.send.half.lost && !d.recv.half.lost
    ensures Apply(d, e).send.half.lost == Apply(d, e).recv.half.lost
  {
  }

  /** What is known on a lost connection stays as it was. */
  predicate Frozen(d: State, f: State) {
    && f.send.half.lost && f.recv.half.lost
    && f.recv.half.feed == d.recv.half.feed && f.recv.half.fin == d.recv.half.fin && f.recv.half.rst == d.recv.half.rst
    && f.send.half.written == d.send.half.written
    && f.send.half.peerStop == d.send.half.peerStop && f.send.half.credit == d.send.half.credit
    && (f.send.half.sending == Tx.DataRecvd ==> d.send.half.sending == Tx.DataRecvd)
    && (f.send.half.sending == Tx.ResetRecvd ==> d.send.half.sending == Tx.ResetRecvd)
  }

  lemma StepAfterLoss(d: State, e: Event)
    requires Enabled(d, e) && d.send.half.lost && d.recv.half.lost
    ensures Frozen(d, Apply(d, e))
  {
    match e
    case OnSend(te) => SendAfterLoss(d.send, te);
    case OnRecv(re) => RecvAfterLoss(d.recv, re);
    case Lose =>
  }

  /** The halves of one stream always agree on whether the connection is gone, and once it is no
      byte, end, reset, stop, acknowledgement or credit reaches either. */
  lemma {:induction false} LossIsShared(d: State, run: seq<Event>)
    requires Legal(d, run) && d.send.half.lost == d.recv.half.lost
    ensures Exec(d, run).send.half.lost == Exec(d, run).recv.half.lost
    ensures d.send.half.lost ==> Frozen(d, Exec(d, run))
    decreases |run|
  {
    if run != [] {
      if d.send.half.lost {
        StepAfterLoss(d, run[0]);
      } else {
        OnlyLoseLoses(d, run[0]);
      }
      LossIsShared(Apply(d, run[0]), run[1..]);
    }
  }

  function Lift(run: seq<Tx.Event>): (r: seq<Event>)
    ensures SendPart(r) == run && RecvPart(r) == []
  {
    if run == [] then [] else
      var r := [OnSend(run[0])] + Lift(run[1..]);
      assert r[1..] == Lift(run[1..]);
      r
  }

  /** From any reachable state, even one whose reader waits for bytes that never come, every
      send-side call can be carried to its end - given credit - without the receive half moving
      at all. */
  lemma BlockedReadNeverDelaysASend(past: seq<Event>) returns (run: seq<Event>)
    requires Legal(INIT, past) && RecvSafety.Starving(Exec(INIT, past).recv)
    ensures Legal(Exec(INIT, past), run)
    ensures forall e :: e in run ==> e.OnSend? && (SendProgress.Progress(e.tx) || e.tx.Credit?)
    ensures Exec(Exec(INIT, past), run).recv == Exec(INIT, past).recv
    ensures forall c :: c in Exec(Exec(INIT, past), run).send.calls ==> c.phase.Done? || c.phase == Tx.Awaiting
  {
    var d := Exec(INIT, past);
    SendHalfKeepsInv(past);
    var drained := SendProgress.Drain(d.send);
    SendProgress.WorkZero(Tx.Exec(d.send, drained).calls);
    run := Lift(drained);
    LiftMembers(drained);
    LiftRuns(d, drained);
  }

  /** Whatever the send half can do by itself the stream can do. */
  lemma LiftRuns(d: State, run: seq<Tx.Event>)
    requires Tx.Legal(d.send, run) && Tx.Lose !in run
    ensures Legal(d, Lift(run)) && Exec(d, Lift(run)) == d.(send := Tx.Exec(d.send, run))
  {
    LiftMembers(run);
    assert Rx.Legal(d.recv, []);
    RunsAreInterleavings(d, Lift(run));
  }

  lemma SendHalfKeepsInv(past: seq<Event>)
    requires Legal(INIT, past)
    ensures Tx.Inv(Exec(INIT, past).send)
  {
    RunsAreInterleavings(INIT, past);
    Tx.RunKeepsInv(Tx.INIT, SendPart(past));
  }

  lemma {:induction false} LiftMembers(run: seq<Tx.Event>)
    ensures forall e :: e in Lift(run) ==> e.OnSend? && e.tx in run
  {
    if run != [] {
      LiftMembers(run[1..]);
      assert forall te :: te in run[1..] ==> te in run;
    }
  }
}
