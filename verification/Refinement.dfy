/** The chunked, lock-based, two-party stream refines the atomic message log. A message enters
    the log, whole, when its first chunk does; it is settled when its call returns, and cut to
    what got through if the call fails or is cancelled instead. */
module Refinement {
  import opened Prelude
  import opened FifoLock
  import opened Pipe
  import Tx = SendHalf
  import Rx = RecvHalf
  import AtomicLog

  /** The log entry of a call: its whole message while it may still return Ok or has, what got
      through of it otherwise. */
  function Entry(calls: seq<Tx.Call>, i: nat): Bytes {
    if i >= |calls| || calls[i].sent == 0 then []
    else if calls[i].phase == Tx.Holding || calls[i].phase == Tx.Done(Tx.Ok(None)) then Tx.Data(calls[i].op)
    else Tx.Part(calls, i)
  }

  function Entries(calls: seq<Tx.Call>, order: seq<nat>): seq<Bytes> {
    if order == [] then []
    else Entries(calls, Front(order)) + (if Entry(calls, Last(order)) == [] then [] else [Entry(calls, Last(order))])
  }

  function EndingOf(s: Tx.Sending): AtomicLog.Ending {
    match s
    case Ready => AtomicLog.Open
    case Send => AtomicLog.Open
    case DataSent => AtomicLog.Finished
    case DataRecvd => AtomicLog.Finished
    case ResetSent => AtomicLog.Reset
    case ResetRecvd => AtomicLog.Reset
  }

  predicate PartWay(s: Tx.State) {
    Tx.HolderIs(s, (c: Tx.Call) => c.op.SendBytes? && c.sent > 0)
  }

  function Abs(p: State): AtomicLog.Log {
    AtomicLog.Log(
      Entries(p.tx.calls, p.tx.lock.granted),
      PartWay(p.tx),
      EndingOf(p.tx.half.sending),
      Rx.Consumed(p.rx.calls, p.rx.lock.granted))
  }

  /** The reads whose return tells the caller that the stream is over. */
  predicate TellsEnd(op: Rx.Op) {
    op.ReadToEnd? || (op.Recv? && op.max > 0)
  }

  /** What a step of the real system is in the atomic one; None is "nothing visible happens". */
  function ActionOf(p: State, e: Event): Option<AtomicLog.Action>
    requires Enabled(p, e)
  {
    match e
    case AtSender(Write(k)) =>
      var c := p.tx.calls[p.tx.lock.holder.value];
      if c.sent == 0 then Some(AtomicLog.Append(c.op.data)) else None
    case AtSender(Complete) => if PartWay(p.tx) then Some(AtomicLog.Settle) else None
    case AtSender(WriteFail) =>
      if PartWay(p.tx) then Some(AtomicLog.Tear(p.tx.calls[p.tx.lock.holder.value].sent)) else None
    case AtSender(Cancel(i)) =>
      if p.tx.lock.holder == Some(i) && PartWay(p.tx) then
        if p.tx.calls[i].sent < |Tx.Data(p.tx.calls[i].op)| then Some(AtomicLog.Tear(p.tx.calls[i].sent))
        else Some(AtomicLog.Settle)
      else None
    case AtSender(DoFinish) =>
      if Tx.FinishHalf(p.tx.half).0 != p.tx.half then Some(AtomicLog.Finish) else None
    case AtSender(DoReset) =>
      if Tx.ResetHalf(p.tx.half).0 != p.tx.half then Some(AtomicLog.DoReset) else None
    case AtReceiver(Take(k)) => Some(AtomicLog.Read(p.rx.half.feed[p.rx.half.taken..p.rx.half.taken + k]))
    case AtReceiver(Return) => if TellsEnd(p.rx.calls[p.rx.lock.holder.value].op) then Some(AtomicLog.End) else None
    case _ => None
  }

  predicate SameLog(s: Tx.State, t: Tx.State) {
    && Entries(t.calls, t.lock.granted) == Entries(s.calls, s.lock.granted)
    && PartWay(t) == PartWay(s)
  }

  lemma {:induction false} EntriesFrame(before: seq<Tx.Call>, after: seq<Tx.Call>, order: seq<nat>)
    requires forall i :: i in order ==> Entry(before, i) == Entry(after, i)
    ensures Entries(before, order) == Entries(after, order)
  {
    if order != [] {
      assert Last(order) in order;
      assert forall i :: i in Front(order) ==> i in order;
      EntriesFrame(before, after, Front(order));
    }
  }

  lemma {:induction false} AllEntries(calls: seq<Tx.Call>, order: seq<nat>)
    ensures AtomicLog.All(Entries(calls, order)) == Joined((i: nat) => Entry(calls, i), order)
  {
    if order != [] {
      AllEntries(calls, Front(order));
      var e := Entry(calls, Last(order));
      if e == [] {
        assert Entries(calls, order) == Entries(calls, Front(order));
      } else {
        assert Front(Entries(calls, Front(order)) + [e]) == Entries(calls, Front(order));
      }
    }
  }

  /** What is on the wire is always a prefix of what the log says. */
  lemma WrittenWithinLog(s: Tx.State)
    requires Tx.Inv(s)
    ensures s.half.written <= AtomicLog.All(Entries(s.calls, s.lock.granted))
  {
    AllEntries(s.calls, s.lock.granted);
    var order := s.lock.granted;
    if order != [] {
      var part := (i: nat) => Tx.Part(s.calls, i);
      var entry := (i: nat) => Entry(s.calls, i);
      forall i | i in Front(order)
        ensures part(i) == entry(i)
      {
        assert i in order;
        assert Tx.CallInv(s, i);
      }
      JoinedFrame(part, entry, Front(order));
      assert Last(order) in order;
      assert Tx.CallInv(s, Last(order));
      assert part(Last(order)) <= entry(Last(order));
    }
  }

  /** The entry of a call that is not writing is what it put on the wire. */
  lemma EntryIsPart(s: Tx.State, i: nat)
    requires Tx.Inv(s) && i in s.lock.granted && (s.lock.holder != Some(i) || !PartWay(s))
    ensures Entry(s.calls, i) == Tx.Part(s.calls, i)
  {
    assert Tx.CallInv(s, i);
  }

  /** With nobody part-way, what is on the wire is what the log says. */
  lemma WrittenIsLog(s: Tx.State)
    requires Tx.Inv(s) && !PartWay(s)
    ensures s.half.written == AtomicLog.All(Entries(s.calls, s.lock.granted))
  {
    AllEntries(s.calls, s.lock.granted);
    forall i | i in s.lock.granted
      ensures Entry(s.calls, i) == Tx.Part(s.calls, i)
    {
      EntryIsPart(s, i);
    }
    JoinedFrame((i: nat) => Tx.Part(s.calls, i), (i: nat) => Entry(s.calls, i), s.lock.granted);
  }

  /** Only the last granted call's entry differs. */
  lemma EntriesAtLast(before: seq<Tx.Call>, after: seq<Tx.Call>, order: seq<nat>)
    requires order != [] && Ascending(order)
    requires forall i :: i in Front(order) ==> Entry(before, i) == Entry(after, i)
    ensures Entries(before, Front(order)) == Entries(after, Front(order))
    ensures Entry(before, Last(order)) != [] && Entry(after, Last(order)) != [] ==>
      && Entries(before, order) != []
      && Entries(after, order) == Front(Entries(before, order)) + [Entry(after, Last(order))]
      && Last(Entries(before, order)) == Entry(before, Last(order))
  {
    EntriesFrame(before, after, Front(order));
  }

  lemma HalfGrows(s: Rx.State, re: Rx.Event)
    requires Rx.Enabled(s, re)
    ensures var h := Rx.Apply(s, re).half;
      h.taken == s.half.taken + (if re.Take? then re.k else 0) && s.half.feed <= h.feed
  {
  }

  /** What readers have taken grows only by what `Take` hands over. */
  lemma ReadGrows(s: Rx.State, re: Rx.Event)
    requires Rx.Inv(s) && Rx.Enabled(s, re)
    ensures var t := Rx.Apply(s, re);
      Rx.Consumed(t.calls, t.lock.granted)
        == Rx.Consumed(s.calls, s.lock.granted)
           + if re.Take? then s.half.feed[s.half.taken..s.half.taken + re.k] else []
    ensures re.Take? ==> Rx.Consumed(Rx.Apply(s, re).calls, Rx.Apply(s, re).lock.granted) <= s.half.feed
  {
    Rx.StepKeepsInv(s, re);
    HalfGrows(s, re);
    var h := Rx.Apply(s, re).half;
    assert h.feed[..h.taken] == s.half.feed[..s.half.taken] + s.half.feed[s.half.taken..h.taken];
  }

  lemma InvokeQuiet(s: Tx.State, op: Tx.Op)
    requires Tx.Inv(s)
    ensures SameLog(s, Tx.Admit(s, op))
  {
    Tx.LockFacts(s);
    EntriesFrame(s.calls, Tx.Admit(s, op).calls, s.lock.granted);
  }

  lemma GrantQuiet(s: Tx.State)
    requires Tx.Inv(s) && Tx.Enabled(s, Tx.Event.Grant)
    ensures SameLog(s, Tx.Apply(s, Tx.Event.Grant))
  {
    var t := Tx.Apply(s, Tx.Event.Grant);
    GrantValid(s.lock, |s.calls|);
    assert Tx.CallInv(s, s.lock.queue[0]);
    EntriesFrame(s.calls, t.calls, s.lock.granted);
    assert Front(t.lock.granted) == s.lock.granted;
  }

  /** Phase changes of a call that has written nothing. */
  lemma PhaseQuiet(s: Tx.State, i: nat, phase: Tx.Phase)
    requires Tx.Inv(s) && i < |s.calls| && s.calls[i].sent == 0
    ensures SameLog(s, Tx.State(s.calls[i := s.calls[i].(phase := phase)], Leave(s.lock, i), s.half))
  {
    EntriesFrame(s.calls, s.calls[i := s.calls[i].(phase := phase)], s.lock.granted);
  }

  lemma QuietSenderStep(s: Tx.State, te: Tx.Event)
    requires Tx.Inv(s) && Tx.Enabled(s, te)
    requires !te.Write? && !te.Complete? && !te.WriteFail? && (te.Cancel? ==> s.lock.holder != Some(te.call))
    ensures SameLog(s, Tx.Apply(s, te))
  {
    Tx.LockFacts(s);
    match te
    case Invoke(op) => InvokeQuiet(s, op);
    case Grant => GrantQuiet(s);
    case DoFinish => PhaseQuiet(s, s.lock.holder.value, Tx.Done(Tx.FinishHalf(s.half).1));
    case DoReset => PhaseQuiet(s, s.lock.holder.value, Tx.Done(Tx.ResetHalf(s.half).1));
    case DoQuery(ok) => PhaseQuiet(s, s.lock.holder.value, Tx.Done(if ok then Tx.Ok(None) else Tx.Failed));
    case Detach => PhaseQuiet(s, s.lock.holder.value, Tx.Awaiting);
    case Resolve(i) =>
      assert Tx.CallInv(s, i);
      PhaseQuiet(s, i, Tx.Done(Tx.Answer(s.half)));
    case Cancel(i) =>
      assert Tx.CallInv(s, i);
      PhaseQuiet(s, i, Tx.Done(Tx.Cancelled));
    case _ =>
  }

  lemma WriteEntries(s: Tx.State, k: nat)
    requires Tx.Inv(s) && Tx.Enabled(s, Tx.Write(k))
    ensures var t := Tx.Apply(s, Tx.Write(k)); var c := s.calls[s.lock.holder.value];
      if c.sent == 0 then
        && !PartWay(s) && PartWay(t)
        && Entries(t.calls, t.lock.granted) == Entries(s.calls, s.lock.granted) + [c.op.data]
      else SameLog(s, t)
  {
    var t := Tx.Apply(s, Tx.Write(k));
    Tx.LockFacts(s);
    EntriesFrame(s.calls, t.calls, Front(s.lock.granted));
  }

  lemma CompleteEntries(s: Tx.State)
    requires Tx.Inv(s) && Tx.Enabled(s, Tx.Complete)
    ensures var t := Tx.Apply(s, Tx.Complete);
      !PartWay(t) && Entries(t.calls, t.lock.granted) == Entries(s.calls, s.lock.granted)
  {
    Tx.LockFacts(s);
    EntriesFrame(s.calls, Tx.Apply(s, Tx.Complete).calls, s.lock.granted);
  }

  /** A part-way holder gives up: its entry shrinks to what got through. */
  lemma TearEntries(s: Tx.State, i: nat, outcome: Tx.Outcome)
    requires Tx.Inv(s) && s.lock.holder == Some(i) && PartWay(s) && !outcome.Ok?
    ensures i < |s.calls| && s.calls[i].op.SendBytes? && s.calls[i].sent <= |s.calls[i].op.data|
    ensures var t := Tx.Settle(s, i, outcome); var before := Entries(s.calls, s.lock.granted);
      && !PartWay(t)
      && before != [] && Last(before) == s.calls[i].op.data
      && Entries(t.calls, t.lock.granted) == Front(before) + [s.calls[i].op.data[..s.calls[i].sent]]
  {
    var t := Tx.Settle(s, i, outcome);
    Tx.LockFacts(s);
    EntriesAtLast(s.calls, t.calls, s.lock.granted);
  }

  predicate Simulates(p: State, e: Event)
    requires Enabled(p, e)
  {
    match ActionOf(p, e)
    case None => Abs(Apply(p, e)) == Abs(p)
    case Some(act) => AtomicLog.Step(Abs(p), act, Abs(Apply(p, e)))
  }

  lemma WriteRefines(p: State, k: nat)
    requires Inv(p) && Enabled(p, AtSender(Tx.Write(k)))
    ensures Simulates(p, AtSender(Tx.Write(k)))
  {
    WriteEntries(p.tx, k);
  }

  lemma CompleteRefines(p: State)
    requires Inv(p) && Enabled(p, AtSender(Tx.Complete))
    ensures Simulates(p, AtSender(Tx.Complete))
  {
    CompleteEntries(p.tx);
  }

  lemma CutShort(a: AtomicLog.Log, b: AtomicLog.Log, k: nat)
    requires a.unsettled && a.entries != [] && 0 < k <= |Last(a.entries)|
    requires b == a.(entries := Front(a.entries) + [Last(a.entries)[..k]], unsettled := false)
    requires a.read <= AtomicLog.All(b.entries)
    ensures AtomicLog.Step(a, if k < |Last(a.entries)| then AtomicLog.Tear(k) else AtomicLog.Settle, b)
  {
    if k == |Last(a.entries)| {
      assert Last(a.entries)[..k] == Last(a.entries);
      assert Front(a.entries) + [Last(a.entries)] == a.entries;
    }
  }

  /** The log a sender's step leads to differs in nothing the reader has. */
  lemma AbsAfterSender(p: State, s: Tx.State)
    ensures Abs(p.(tx := s)) == AtomicLog.Log(Entries(s.calls, s.lock.granted), PartWay(s), EndingOf(s.half.sending), Abs(p).read)
  {
  }

  /** And a receiver's step changes only what has been read. */
  lemma AbsAfterReceiver(p: State, s: Rx.State)
    ensures Abs(p.(rx := s)) == Abs(p).(read := Rx.Consumed(s.calls, s.lock.granted))
  {
  }

  /** What readers have is on the wire. */
  lemma ReadIsWritten(p: State)
    requires Inv(p)
    ensures Abs(p).read <= p.tx.half.written
  {
  }

  lemma GiveUpEvent(s: Tx.State, te: Tx.Event)
    requires Tx.Inv(s) && Tx.Enabled(s, te) && (te.WriteFail? || (te.Cancel? && s.lock.holder == Some(te.call)))
    ensures s.lock.holder.Some? && s.lock.holder.value < |s.calls|
    ensures Tx.Apply(s, te) == Tx.Settle(s, s.lock.holder.value, if te.WriteFail? then Tx.Failed else Tx.Cancelled)
    ensures PartWay(s) <==> s.calls[s.lock.holder.value].sent > 0
    ensures te.WriteFail? ==> s.calls[s.lock.holder.value].sent < |Tx.Data(s.calls[s.lock.holder.value].op)|
  {
    Tx.LockFacts(s);
  }

  /** The part-way holder fails or is cancelled; what readers already have is still in the log. */
  lemma TearRefines(p: State, te: Tx.Event)
    requires Inv(p) && Enabled(p, AtSender(te)) && PartWay(p.tx)
    requires te.WriteFail? || (te.Cancel? && p.tx.lock.holder == Some(te.call))
    ensures Simulates(p, AtSender(te))
  {
    var s := p.tx;
    var t := Tx.Apply(s, te);
    GiveUpEvent(s, te);
    var i := s.lock.holder.value;
    TearEntries(s, i, if te.WriteFail? then Tx.Failed else Tx.Cancelled);
    Tx.StepKeepsInv(s, te);
    WrittenWithinLog(t);
    ReadIsWritten(p);
    AbsAfterSender(p, t);
    CutShort(Abs(p), Abs(p.(tx := t)), s.calls[i].sent);
  }

  lemma GiveUpQuiet(p: State, te: Tx.Event)
    requires Inv(p) && Enabled(p, AtSender(te)) && !PartWay(p.tx)
    requires te.WriteFail? || (te.Cancel? && p.tx.lock.holder == Some(te.call))
    ensures Simulates(p, AtSender(te))
  {
    GiveUpEvent(p.tx, te);
    PhaseQuiet(p.tx, p.tx.lock.holder.value, Tx.Done(if te.WriteFail? then Tx.Failed else Tx.Cancelled));
    AbsAfterSender(p, Tx.Apply(p.tx, te));
  }

  lemma FinishEnding(s: Tx.State)
    requires Tx.Inv(s) && Tx.Enabled(s, Tx.DoFinish)
    ensures var h := s.half; var k := Tx.Apply(s, Tx.DoFinish).half;
      && k == Tx.FinishHalf(h).0 && !PartWay(s)
      && (k != h ==> EndingOf(h.sending) == AtomicLog.Open && EndingOf(k.sending) == AtomicLog.Finished)
  {
    Tx.LockFacts(s);
  }

  lemma ResetEnding(s: Tx.State)
    requires Tx.Inv(s) && Tx.Enabled(s, Tx.DoReset)
    ensures var h := s.half; var k := Tx.Apply(s, Tx.DoReset).half;
      && k == Tx.ResetHalf(h).0 && !PartWay(s)
      && (k != h ==> EndingOf(h.sending) != AtomicLog.Reset && EndingOf(k.sending) == AtomicLog.Reset)
  {
    Tx.LockFacts(s);
  }

  lemma CloseRefines(p: State, te: Tx.Event)
    requires Inv(p) && Enabled(p, AtSender(te)) && (te.DoFinish? || te.DoReset?)
    ensures Simulates(p, AtSender(te))
  {
    QuietSenderStep(p.tx, te);
    AbsAfterSender(p, Tx.Apply(p.tx, te));
    if te.DoFinish? {
      FinishEnding(p.tx);
    } else {
      ResetEnding(p.tx);
    }
  }

  lemma QuietSenderRefines(p: State, te: Tx.Event)
    requires Inv(p) && Enabled(p, AtSender(te)) && (te.Cancel? ==> p.tx.lock.holder != Some(te.call))
    requires !te.Write? && !te.Complete? && !te.WriteFail? && !te.DoFinish? && !te.DoReset?
    ensures Simulates(p, AtSender(te))
  {
    QuietSenderStep(p.tx, te);
    AbsAfterSender(p, Tx.Apply(p.tx, te));
  }

  lemma SenderRefines(p: State, te: Tx.Event)
    requires Inv(p) && Enabled(p, AtSender(te))
    ensures Simulates(p, AtSender(te))
  {
    if te.Write? {
      WriteRefines(p, te.k);
    } else if te.Complete? {
      CompleteRefines(p);
    } else if te.WriteFail? || (te.Cancel? && p.tx.lock.holder == Some(te.call)) {
      if PartWay(p.tx) {
        TearRefines(p, te);
      } else {
        GiveUpQuiet(p, te);
      }
    } else if te.DoFinish? || te.DoReset? {
      CloseRefines(p, te);
    } else {
      QuietSenderRefines(p, te);
    }
  }

  lemma TakeRefines(p: State, k: nat)
    requires Inv(p) && Enabled(p, AtReceiver(Rx.Take(k)))
    ensures Simulates(p, AtReceiver(Rx.Take(k)))
  {
    var t := Rx.Apply(p.rx, Rx.Take(k));
    ReadGrows(p.rx, Rx.Take(k));
    AbsAfterReceiver(p, t);
    WrittenWithinLog(p.tx);
    PrefixOfPrefix(Abs(p.(rx := t)).read, p.rx.half.feed, p.tx.half.written, AtomicLog.All(Abs(p).entries));
  }

  lemma PrefixOfPrefix(read: Bytes, feed: Bytes, written: Bytes, log: Bytes)
    requires read <= feed <= written <= log
    ensures read <= log
  {
  }

  /** A read that tells of the end has the whole log behind it. */
  lemma EndRefines(p: State)
    requires Inv(p) && Enabled(p, AtReceiver(Rx.Return)) && TellsEnd(p.rx.calls[p.rx.lock.holder.value].op)
    ensures Simulates(p, AtReceiver(Rx.Return))
  {
    ReadGrows(p.rx, Rx.Return);
    AbsAfterReceiver(p, Rx.Apply(p.rx, Rx.Return));
    NobodyPartWay(p.tx);
    WrittenIsLog(p.tx);
    assert p.rx.half.feed[..p.rx.half.taken] == p.rx.half.feed;
  }

  lemma NobodyPartWay(s: Tx.State)
    requires Tx.Inv(s) && !Tx.Open(s.half)
    ensures !PartWay(s)
  {
    Tx.LockFacts(s);
  }

  lemma QuietReceiverRefines(p: State, re: Rx.Event)
    requires Inv(p) && Enabled(p, AtReceiver(re)) && !re.Take? && ActionOf(p, AtReceiver(re)).None?
    ensures Simulates(p, AtReceiver(re))
  {
    ReadGrows(p.rx, re);
    AbsAfterReceiver(p, Rx.Apply(p.rx, re));
  }

  lemma ReceiverRefines(p: State, re: Rx.Event)
    requires Inv(p) && Enabled(p, AtReceiver(re))
    ensures Simulates(p, AtReceiver(re))
  {
    if re.Take? {
      TakeRefines(p, re.k);
    } else if re.Return? && TellsEnd(p.rx.calls[p.rx.lock.holder.value].op) {
      EndRefines(p);
    } else {
      QuietReceiverRefines(p, re);
    }
  }

  lemma NetworkRefines(p: State, e: Event)
    requires Inv(p) && Enabled(p, e) && !e.AtSender? && !e.AtReceiver?
    ensures Abs(Apply(p, e)) == Abs(p)
  {
    match e
    case Deliver(k) => ReadGrows(p.rx, Rx.Arrive(Carried(p, k)));
    case DeliverFin => ReadGrows(p.rx, Rx.FinArrive);
    case DeliverReset => ReadGrows(p.rx, Rx.RstArrive);
    case DeliverStop => QuietSenderStep(p.tx, Tx.PeerStop(p.rx.half.stop.value));
    case Ack => QuietSenderStep(p.tx, Tx.PeerAck);
  }

  /** Every step of the chunked, locked, two-party system is one step of the atomic log, or
      leaves it unchanged. */
  lemma StepRefines(p: State, e: Event)
    requires Inv(p) && Enabled(p, e)
    ensures Simulates(p, e)
  {
    match e
    case AtSender(te) => SenderRefines(p, te);
    case AtReceiver(re) => ReceiverRefines(p, re);
    case _ => NetworkRefines(p, e);
  }

  /** What a whole run does to the log. */
  function Actions(p: State, run: seq<Event>): seq<AtomicLog.Action>
    requires Legal(p, run)
    decreases |run|
  {
    if run == [] then []
    else
      var rest := Actions(Apply(p, run[0]), run[1..]);
      match ActionOf(p, run[0])
      case None => rest
      case Some(act) => [act] + rest
  }

  /** Every run of the real system is a run of the atomic log, from the empty log. */
  lemma {:induction false} RunRefines(p: State, run: seq<Event>)
    requires Inv(p) && Legal(p, run)
    ensures AtomicLog.Run(Abs(p), Actions(p, run), Abs(Exec(p, run)))
    decreases |run|
  {
    if run != [] {
      StepRefines(p, run[0]);
      StepKeepsInv(p, run[0]);
      var next := Apply(p, run[0]);
      RunRefines(next, run[1..]);
      if ActionOf(p, run[0]).Some? {
        var act := ActionOf(p, run[0]).value;
        var rest := Actions(next, run[1..]);
        assert ([act] + rest)[1..] == rest;
        assert AtomicLog.Step(Abs(p), ([act] + rest)[0], Abs(next)) && AtomicLog.Run(Abs(next), rest, Abs(Exec(p, run)));
      }
    }
  }

  lemma ChunkedSystemRefinesAtomicLog(run: seq<Event>)
    requires Legal(INIT, run)
    ensures Abs(INIT) == AtomicLog.EMPTY
    ensures AtomicLog.Run(AtomicLog.EMPTY, Actions(INIT, run), Abs(Exec(INIT, run)))
  {
    RunRefines(INIT, run);
  }
}
