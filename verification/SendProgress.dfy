/** Progress on a send half: a measure every step of the lock holder decreases, what a writer
    without credit does to everyone behind it, and the reason `stopped` must not keep the guard
    while it waits. */
module SendProgress {
  import opened Prelude
  import opened FifoLock
  import opened SendHalf

  /** The steps by which calls advance, as opposed to new calls, cancellations and the peer. */
  predicate Progress(e: Event) {
    e.Grant? || e.Write? || e.Complete? || e.WriteFail? || e.DoFinish? || e.DoReset? || e.DoQuery? || e.Detach?
  }

  /** Remaining bytes plus remaining phases of one call. */
  function Weight(c: Call): nat {
    match c.phase
    case Queued => |Data(c.op)| + 2
    case Holding => if c.sent <= |Data(c.op)| then |Data(c.op)| - c.sent + 1 else 1
    case Awaiting => 0
    case Done(_) => 0
  }

  function WeightAt(calls: seq<Call>, i: nat): nat {
    if i < |calls| then Weight(calls[i]) else 0
  }

  function Work(calls: seq<Call>): nat {
    Sum((i: nat) => WeightAt(calls, i), |calls|)
  }

  lemma WorkUpdate(calls: seq<Call>, i: nat, c: Call)
    requires i < |calls|
    ensures Work(calls[i := c]) == Work(calls) - Weight(calls[i]) + Weight(c)
  {
    SumUpdate((j: nat) => WeightAt(calls, j), (j: nat) => WeightAt(calls[i := c], j), |calls|, i);
  }

  lemma WorkZero(calls: seq<Call>)
    ensures Work(calls) == 0 <==> forall i :: 0 <= i < |calls| ==> calls[i].phase == Awaiting || calls[i].phase.Done?
  {
    var f := (j: nat) => WeightAt(calls, j);
    SumZero(f, |calls|);
    assert forall i: nat :: i < |calls| ==> f(i) == Weight(calls[i]);
  }

  /** Every progress step, with any chunk size, strictly lowers the measure; no other step of a
      task already running, of the peer or of the network raises it. */
  lemma StepWork(s: State, e: Event)
    requires Inv(s) && Enabled(s, e) && !e.Invoke?
    ensures Work(Apply(s, e).calls) <= Work(s.calls)
    ensures Progress(e) ==> Work(Apply(s, e).calls) < Work(s.calls)
  {
    var t := Apply(s, e);
    var i :=
      if e.Grant? then s.lock.queue[0]
      else if e.Resolve? then e.call
      else if e.Cancel? then e.call
      else if Progress(e) then s.lock.holder.value
      else 0;
    if Progress(e) || e.Resolve? || e.Cancel? {
      assert CallInv(s, i);
      WorkUpdate(s.calls, i, t.calls[i]);
      assert t.calls == s.calls[i := t.calls[i]];
      if e.Grant? {
        assert i in s.lock.queue;
      }
    }
  }

  function CountProgress(run: seq<Event>): nat {
    if run == [] then 0 else (if Progress(run[0]) then 1 else 0) + CountProgress(run[1..])
  }

  /** Over any run of the calls already made - whatever chunks, failures, cancellations and
      peer events it holds - the number of progress steps is bounded by the work at its start. */
  lemma {:induction false} ProgressIsBounded(s: State, run: seq<Event>)
    requires Inv(s) && Legal(s, run) && forall e :: e in run ==> !e.Invoke?
    ensures CountProgress(run) + Work(Exec(s, run).calls) <= Work(s.calls)
    decreases |run|
  {
    if run != [] {
      assert run[0] in run;
      assert forall e :: e in run[1..] ==> e in run;
      StepWork(s, run[0]);
      StepKeepsInv(s, run[0]);
      ProgressIsBounded(Apply(s, run[0]), run[1..]);
    }
  }

  /** The first n calls. */
  function Upto(calls: seq<Call>, n: nat): seq<Call> {
    if n <= |calls| then calls[..n] else calls
  }

  /** Call i is waiting for the lock or holds it. */
  predicate Pending(s: State, i: nat) {
    i < |s.calls| && (s.calls[i].phase == Queued || s.calls[i].phase == Holding)
  }

  /** The call a step moves: the one served next, the holder, or the one named. */
  lemma MovedCall(s: State, e: Event) returns (j: nat)
    requires Inv(s) && Enabled(s, e) && (Progress(e) || e.Resolve? || e.Cancel?)
    ensures j < |s.calls| && Apply(s, e).calls == s.calls[j := Apply(s, e).calls[j]]
    ensures Weight(Apply(s, e).calls[j]) <= Weight(s.calls[j])
    ensures Progress(e) ==> Weight(Apply(s, e).calls[j]) < Weight(s.calls[j])
    ensures Progress(e) ==> if e.Grant? then s.lock.queue[0] == j else s.lock.holder == Some(j)
  {
    LockFacts(s);
    j := if e.Grant? then s.lock.queue[0] else if Progress(e) then s.lock.holder.value else e.call;
    assert CallInv(s, j);
  }

  /** The holder and the next in the queue come no later than any pending call. */
  lemma ServedInOrder(s: State, i: nat)
    requires Inv(s) && Pending(s, i)
    ensures s.lock.holder.Some? ==> s.lock.holder.value <= i
    ensures s.lock.holder.None? && s.lock.queue != [] ==> s.lock.queue[0] <= i
  {
    LockFacts(s);
    assert CallInv(s, i);
  }

  /** While call i is pending, every call step belongs to it or to an earlier call. */
  lemma AheadStep(s: State, e: Event, i: nat)
    requires Inv(s) && Pending(s, i) && Enabled(s, e)
    ensures var ahead := Work(Upto(Apply(s, e).calls, i + 1));
      && ahead <= Work(Upto(s.calls, i + 1))
      && (Progress(e) ==> ahead < Work(Upto(s.calls, i + 1)))
  {
    var t := Apply(s, e);
    if Progress(e) || e.Resolve? || e.Cancel? {
      var j := MovedCall(s, e);
      ServedInOrder(s, i);
      if j <= i {
        assert Upto(t.calls, i + 1) == Upto(s.calls, i + 1)[j := t.calls[j]];
        WorkUpdate(Upto(s.calls, i + 1), j, t.calls[j]);
      } else {
        assert Upto(t.calls, i + 1) == Upto(s.calls, i + 1);
      }
    } else {
      assert Upto(t.calls, i + 1) == Upto(s.calls, i + 1);
    }
  }

  lemma DoneStaysDone(s: State, e: Event, i: nat)
    requires Inv(s) && Enabled(s, e) && i < |s.calls| && !Pending(s, i)
    ensures !Pending(Apply(s, e), i)
  {
    LockFacts(s);
    assert CallInv(s, i);
  }

  lemma {:induction false} PendingBefore(s: State, run: seq<Event>, i: nat)
    requires Inv(s) && Legal(s, run) && i < |s.calls| && Pending(Exec(s, run), i)
    ensures Pending(s, i)
    decreases |run|
  {
    if run != [] {
      StepKeepsInv(s, run[0]);
      PendingBefore(Apply(s, run[0]), run[1..], i);
      if !Pending(s, i) {
        DoneStaysDone(s, run[0], i);
      }
    }
  }

  /** Nobody is overtaken: over any run whatever - any number of new calls included - a call that
      is still pending at the end has seen at most as many call steps as there was work in it and
      in the calls made before it. */
  lemma {:induction false} WaitIsBounded(s: State, run: seq<Event>, i: nat)
    requires Inv(s) && Legal(s, run) && i < |s.calls| && Pending(Exec(s, run), i)
    ensures CountProgress(run) + Work(Upto(Exec(s, run).calls, i + 1)) <= Work(Upto(s.calls, i + 1))
    decreases |run|
  {
    if run != [] {
      PendingBefore(s, run, i);
      AheadStep(s, run[0], i);
      StepKeepsInv(s, run[0]);
      WaitIsBounded(Apply(s, run[0]), run[1..], i);
    }
  }

  // ------------------------------------------------------------ credit

  /** The holder is a `send_bytes` with bytes left, the stream would take them, and the transport
      has no credit: `write_all` waits, guard in hand. */
  predicate Starved(s: State) {
    Writable(s.half) && s.half.credit == 0 && HolderIs(s, (c: Call) => c.op.SendBytes? && c.sent < |c.op.data|)
  }

  /** The step the current holder, or else the lock, can take next. */
  function NextStep(s: State): Event
    requires s.lock.holder.Some? ==> s.lock.holder.value < |s.calls|
  {
    if s.lock.holder.None? then Event.Grant
    else
      var c := s.calls[s.lock.holder.value];
      match c.op
      case SendBytes(data) =>
        if c.sent == |data| then Complete
        else if !Writable(s.half) then WriteFail
        else Write(1)
      case Finish => DoFinish
      case Reset(_) => DoReset
      case Stopped => Detach
      case Query => DoQuery(true)
  }

  lemma NextStepEnabled(s: State)
    requires Inv(s) && Work(s.calls) > 0 && !Starved(s)
    ensures s.lock.holder.Some? ==> s.lock.holder.value < |s.calls|
    ensures Progress(NextStep(s)) && Enabled(s, NextStep(s))
  {
    WorkZero(s.calls);
    var i :| 0 <= i < |s.calls| && (s.calls[i].phase == Queued || s.calls[i].phase == Holding);
    assert CallInv(s, i);
    LockFacts(s);
  }

  /** While calls are unfinished there is one way only for nothing to move: the holder is a
      writer out of credit. No wait cycle among the calls is reachable. */
  lemma BlockedExactlyWhenStarved(s: State)
    requires Inv(s) && Work(s.calls) > 0
    ensures (forall e :: Progress(e) ==> !Enabled(s, e)) <==> Starved(s)
  {
    if !Starved(s) {
      NextStepEnabled(s);
    }
  }

  /** The events from outside that free a starved half whose holder is `holder`. */
  predicate Relief(e: Event, holder: nat) {
    e.Credit? || e.PeerStop? || e.Lose? || e == Cancel(holder)
  }

  /** Credit, a stop, a loss or the writer's own cancellation ends the starvation, and then some
      call can move if any is left; nothing else that can happen does. */
  lemma RelievedExactlyBy(s: State, e: Event)
    requires Inv(s) && Starved(s) && Enabled(s, e)
    ensures Starved(Apply(s, e)) <==> !Relief(e, s.lock.holder.value)
    ensures Relief(e, s.lock.holder.value) && Work(Apply(s, e).calls) > 0 ==>
      exists next :: Progress(next) && Enabled(Apply(s, e), next)
  {
    var t := Apply(s, e);
    LockFacts(s);
    StepKeepsInv(s, e);
    if !Relief(e, s.lock.holder.value) {
      StarvedStep(s, e);
    } else if Work(t.calls) > 0 {
      NextStepEnabled(t);
    }
  }

  /** Still queued, gave up waiting, or refused before the lock. */
  predicate Unserved(c: Call) {
    c.phase == Queued || c.phase == Done(Cancelled) || (c.op.Reset? && c.op.code >= VARINT_LIMIT)
  }

  lemma StarvedStep(s: State, e: Event)
    requires Inv(s) && Starved(s) && Enabled(s, e) && !Relief(e, s.lock.holder.value)
    ensures var t := Apply(s, e);
      && Starved(t) && t.half == s.half && t.lock.holder == s.lock.holder && t.lock.granted == s.lock.granted
      && |s.calls| <= |t.calls|
      && (forall i :: 0 <= i < |t.calls| && (i >= |s.calls| || Unserved(s.calls[i])) ==> Unserved(t.calls[i]))
  {
    LockFacts(s);
  }

  /** What `send_bytes` keeping the guard over `write_all` means without credit: until one of
      those events nobody is given the lock. Every `finish`, `reset`, `stopped`, priority or id
      call - queued already or made later - stays unserved, over every run. */
  lemma {:induction false} StarvedHoldsUpEveryone(s: State, run: seq<Event>)
    requires Inv(s) && Starved(s) && Legal(s, run)
    requires forall e :: e in run ==> !Relief(e, s.lock.holder.value)
    ensures var t := Exec(s, run);
      && Starved(t) && t.half == s.half && t.lock.holder == s.lock.holder && t.lock.granted == s.lock.granted
      && |s.calls| <= |t.calls|
      && (forall i :: 0 <= i < |t.calls| && (i >= |s.calls| || Unserved(s.calls[i])) ==> Unserved(t.calls[i]))
    decreases |run|
  {
    if run != [] {
      assert run[0] in run;
      assert forall e :: e in run[1..] ==> e in run;
      StarvedStep(s, run[0]);
      StepKeepsInv(s, run[0]);
      StarvedHoldsUpEveryone(Apply(s, run[0]), run[1..]);
    }
  }

  /** Such a state is reachable with a `finish` and a `reset` queued behind any non-empty send. */
  lemma SendWithoutCreditStarves(data: Bytes) returns (run: seq<Event>)
    requires data != []
    ensures Legal(INIT, run) && Starved(Exec(INIT, run))
    ensures Exec(INIT, run).calls == [Call(SendBytes(data), Holding, 0), Call(Finish, Queued, 0), Call(Reset(0), Queued, 0)]
  {
    var s1 := Apply(INIT, Invoke(SendBytes(data)));
    var s2 := Apply(s1, Event.Grant);
    var s3 := Apply(s2, Invoke(Finish));
    LegalAppend(s2, [Invoke(Finish)], [Invoke(Reset(0))]);
    LegalAppend(s1, [Event.Grant], [Invoke(Finish)] + [Invoke(Reset(0))]);
    LegalAppend(INIT, [Invoke(SendBytes(data))], [Event.Grant] + ([Invoke(Finish)] + [Invoke(Reset(0))]));
    run := [Invoke(SendBytes(data))] + ([Event.Grant] + ([Invoke(Finish)] + [Invoke(Reset(0))]));
    assert s3.calls == [Call(SendBytes(data), Holding, 0), Call(Finish, Queued, 0)];
  }

  /** A run that can make no further progress and is not starved has finished every call; only
      `stopped` futures, which hold nothing, may still be waiting for the peer. */
  lemma QuiescentMeansComplete(s: State, run: seq<Event>)
    requires Inv(s) && Legal(s, run) && !Starved(Exec(s, run))
    requires forall e :: Progress(e) ==> !Enabled(Exec(s, run), e)
    ensures forall c :: c in Exec(s, run).calls ==> c.phase.Done? || (c.phase == Awaiting && c.op.Stopped?)
    ensures Exec(s, run).lock.holder.None? && Exec(s, run).lock.queue == []
  {
    var t := Exec(s, run);
    RunKeepsInv(s, run);
    if Work(t.calls) > 0 {
      NextStepEnabled(t);
    }
    WorkZero(t.calls);
    LockFacts(t);
    forall i | 0 <= i < |t.calls|
      ensures t.calls[i].phase.Done? || (t.calls[i].phase == Awaiting && t.calls[i].op.Stopped?)
    {
      assert CallInv(t, i);
    }
  }

  /** What a well-behaved environment and the calls do together: a call step, or credit for a
      starved writer. */
  predicate Grants(s: State, e: Event) {
    Enabled(s, e) && (Progress(e) || (e.Credit? && Starved(s)))
  }

  /** The calls already made run while the environment keeps granting credit to whoever starves. */
  predicate Granting(s: State, run: seq<Event>)
    decreases |run|
  {
    run == [] || (Grants(s, run[0]) && Granting(Apply(s, run[0]), run[1..]))
  }

  function Debt(s: State): nat {
    2 * Work(s.calls) + if Starved(s) then 1 else 0
  }

  lemma GrantsStep(s: State, e: Event)
    requires Inv(s) && Grants(s, e)
    ensures Debt(Apply(s, e)) < Debt(s)
    ensures Inv(Apply(s, e))
  {
    StepWork(s, e);
    StepKeepsInv(s, e);
  }

  /** With credit granted whenever it is wanting, every run of the calls ends within a bound known
      at its start, and it ends - cannot be continued - exactly when all calls are finished. */
  lemma {:induction false} GrantedCallsFinish(s: State, run: seq<Event>)
    requires Inv(s) && Granting(s, run)
    ensures Legal(s, run)
    ensures |run| + Debt(Exec(s, run)) <= Debt(s)
    ensures (forall e :: !Grants(Exec(s, run), e)) <==> Work(Exec(s, run).calls) == 0
    decreases |run|
  {
    if run == [] {
      if Work(s.calls) == 0 {
        forall e
          ensures !Grants(s, e)
        {
          if Grants(s, e) {
            GrantsStep(s, e);
            IdleIsNotStarved(s);
            StepWork(s, e);
          }
        }
      } else if Starved(s) {
        assert Grants(s, Credit(1));
      } else {
        NextStepEnabled(s);
        assert Grants(s, NextStep(s));
      }
    } else {
      GrantsStep(s, run[0]);
      GrantedCallsFinish(Apply(s, run[0]), run[1..]);
    }
  }

  lemma IdleIsNotStarved(s: State)
    requires Inv(s) && Work(s.calls) == 0
    ensures !Starved(s)
  {
    WorkZero(s.calls);
    LockFacts(s);
  }

  lemma GrantsKeepWaiters(s: State, e: Event)
    requires Inv(s) && Grants(s, e)
    ensures |Apply(s, e).calls| == |s.calls|
    ensures forall i :: 0 <= i < |s.calls| && s.calls[i].phase == Awaiting ==> Apply(s, e).calls[i] == s.calls[i]
    ensures Apply(s, e).half.peerStop == s.half.peerStop && Apply(s, e).half.lost == s.half.lost
  {
    LockFacts(s);
  }

  /** Letting the calls run: some run of call steps and credit finishes all of them, and leaves
      every waiting `stopped` exactly where it was. */
  lemma {:induction false} Drain(s: State) returns (run: seq<Event>)
    requires Inv(s)
    ensures Legal(s, run) && Inv(Exec(s, run)) && Work(Exec(s, run).calls) == 0
    ensures Granting(s, run) && forall e :: e in run ==> Progress(e) || e.Credit?
    ensures |Exec(s, run).calls| == |s.calls|
    ensures forall i :: 0 <= i < |s.calls| && s.calls[i].phase == Awaiting ==> Exec(s, run).calls[i] == s.calls[i]
    ensures Exec(s, run).half.peerStop == s.half.peerStop && Exec(s, run).half.lost == s.half.lost
    decreases Debt(s)
  {
    if Work(s.calls) == 0 {
      return [];
    }
    if !Starved(s) {
      NextStepEnabled(s);
    }
    var e := if Starved(s) then Credit(1) else NextStep(s);
    GrantsStep(s, e);
    GrantsKeepWaiters(s, e);
    var rest := Drain(Apply(s, e));
    run := [e] + rest;
    assert run[1..] == rest;
  }

  // ------------------------------------------------------------ stopped

  /** In every reachable state where a `stopped` call waits it neither holds nor wants the lock,
      and any new call can be carried to its end (or, for another `stopped`, to its own wait)
      by call steps and credit, with the first one still waiting. */
  lemma WaitingStoppedBlocksNobody(past: seq<Event>, c: nat, op: Op) returns (run: seq<Event>)
    requires Legal(INIT, past) && c < |Exec(INIT, past).calls| && Exec(INIT, past).calls[c].phase == Awaiting
    ensures var s := Exec(INIT, past);
      && s.lock.holder != Some(c) && c !in s.lock.queue
      && run != [] && run[0] == Invoke(op) && Legal(s, run)
      && (forall e :: e in run[1..] ==> Progress(e) || e.Credit?)
      && |Exec(s, run).calls| == |s.calls| + 1
      && Exec(s, run).calls[c] == s.calls[c]
      && (if op.Stopped? then Exec(s, run).calls[|s.calls|].phase == Awaiting || Exec(s, run).calls[|s.calls|].phase.Done?
          else Exec(s, run).calls[|s.calls|].phase.Done?)
  {
    var s := Exec(INIT, past);
    RunKeepsInv(INIT, past);
    assert CallInv(s, c);
    var t := Apply(s, Invoke(op));
    StepKeepsInv(s, Invoke(op));
    var rest := Drain(t);
    run := [Invoke(op)] + rest;
    assert run[1..] == rest;
    var u := Exec(t, rest);
    WorkZero(u.calls);
    OpsNeverChange(t, rest);
    assert CallInv(u, |s.calls|);
  }

  /** And on a live connection the wait itself can be ended by the send half's own user:
      finishing the stream and having it acknowledged resolves `stopped` with None. */
  lemma WaitingStoppedCanBeFinished(past: seq<Event>, c: nat) returns (run: seq<Event>)
    requires Legal(INIT, past) && c < |Exec(INIT, past).calls| && Exec(INIT, past).calls[c].phase == Awaiting
    requires Exec(INIT, past).half.peerStop.None? && !Exec(INIT, past).half.lost
    ensures Legal(Exec(INIT, past), run) && c < |Exec(Exec(INIT, past), run).calls|
    ensures Exec(Exec(INIT, past), run).calls[c].phase == Done(Ok(None))
    ensures forall e :: e in run ==> Progress(e) || e.Credit? || e == Invoke(Finish) || e == PeerAck || e == Resolve(c)
  {
    var s := Exec(INIT, past);
    RunKeepsInv(INIT, past);
    var drained := Drain(s);
    var t := Exec(s, drained);
    var ending := FinishAndAck(t, c);
    LegalAppend(s, drained, ending);
    run := drained + ending;
  }

  lemma FinishIdle(t: State) returns (run: seq<Event>)
    requires t.lock.holder.None? && t.lock.queue == [] && Open(t.half) && t.half.peerStop.None?
    ensures run == [Invoke(Finish), Event.Grant, DoFinish] && Legal(t, run)
    ensures Exec(t, run).half == t.half.(sending := DataSent)
    ensures Exec(t, run).calls == t.calls + [Call(Finish, Done(Ok(None)), 0)]
  {
    run := [Invoke(Finish), Event.Grant, DoFinish];
    var t1 := Apply(t, Invoke(Finish));
    var t2 := Apply(t1, Event.Grant);
    assert run[1..] == [Event.Grant, DoFinish];
    assert run[1..][1..] == [DoFinish];
    assert Legal(t2, [DoFinish]);
  }

  lemma AckAndResolve(t: State, c: nat) returns (run: seq<Event>)
    requires !Open(t.half) && c < |t.calls| && t.calls[c].phase == Awaiting && t.half.peerStop.None? && !t.half.lost
    ensures Legal(t, run) && c < |Exec(t, run).calls| && Exec(t, run).calls[c].phase == Done(Ok(None))
    ensures forall e :: e in run ==> e == PeerAck || e == Resolve(c)
  {
    if t.half.sending == DataSent || t.half.sending == ResetSent {
      run := [PeerAck] + [Resolve(c)];
      LegalAppend(t, [PeerAck], [Resolve(c)]);
    } else {
      run := [Resolve(c)];
    }
  }

  lemma FinishAndAck(t: State, c: nat) returns (run: seq<Event>)
    requires Inv(t) && Work(t.calls) == 0 && c < |t.calls| && t.calls[c].phase == Awaiting
    requires t.half.peerStop.None? && !t.half.lost
    ensures Legal(t, run) && c < |Exec(t, run).calls| && Exec(t, run).calls[c].phase == Done(Ok(None))
    ensures forall e :: e in run ==> Progress(e) || e == Invoke(Finish) || e == PeerAck || e == Resolve(c)
  {
    if Open(t.half) {
      WorkZero(t.calls);
      LockFacts(t);
      var closing := FinishIdle(t);
      var ending := AckAndResolve(Exec(t, closing), c);
      LegalAppend(t, closing, ending);
      run := closing + ending;
    } else {
      run := AckAndResolve(t, c);
    }
  }

  /** The connection went before the peer stopped the stream or acknowledged all of it. */
  predicate Unanswered(h: Half) {
    h.lost && h.peerStop.None? && h.sending != DataRecvd && h.sending != ResetRecvd
  }

  predicate WaitsOrGaveUp(c: Call) {
    c.op.Stopped? && (c.phase == Awaiting || c.phase == Done(Failed) || c.phase == Done(Cancelled))
  }

  lemma UnansweredStep(s: State, c: nat, e: Event)
    requires Inv(s) && Enabled(s, e) && c < |s.calls| && Unanswered(s.half) && WaitsOrGaveUp(s.calls[c])
    ensures var t := Apply(s, e);
      && Unanswered(t.half) && c < |t.calls| && WaitsOrGaveUp(t.calls[c])
      && (t.calls[c].phase == Done(Cancelled) ==> s.calls[c].phase == Done(Cancelled) || e == Cancel(c))
  {
    LockFacts(s);
    assert CallInv(s, c);
  }

  /** After that no waiting `stopped` is ever told anything but an error, whatever the calls then
      do: while it waits it can resolve, with Failed, and a call that is over failed or was
      cancelled. */
  lemma {:induction false} LostStoppedFails(s: State, c: nat, run: seq<Event>)
    requires Inv(s) && Legal(s, run) && c < |s.calls| && Unanswered(s.half) && WaitsOrGaveUp(s.calls[c])
    ensures var t := Exec(s, run);
      && Unanswered(t.half) && c < |t.calls| && WaitsOrGaveUp(t.calls[c])
      && (t.calls[c].phase == Awaiting ==> Enabled(t, Resolve(c)) && Apply(t, Resolve(c)).calls[c].phase == Done(Failed))
      && (t.calls[c].phase == Done(Cancelled) ==> s.calls[c].phase == Done(Cancelled) || Cancel(c) in run)
    decreases |run|
  {
    if run != [] {
      UnansweredStep(s, c, run[0]);
      StepKeepsInv(s, run[0]);
      LostStoppedFails(Apply(s, run[0]), c, run[1..]);
    }
  }

  // --------------------------------------- the variant that keeps the guard

  /** The same system except that `stopped` waits with the guard in hand. */
  predicate GuardedEnabled(s: State, e: Event) {
    if e.Detach? then false
    else if e.Park? then HolderIs(s, (c: Call) => c.op.Stopped? && c.phase == Holding)
    else Enabled(s, e)
  }

  predicate GuardedLegal(s: State, run: seq<Event>)
    decreases |run|
  {
    run == [] || (GuardedEnabled(s, run[0]) && GuardedLegal(Apply(s, run[0]), run[1..]))
  }

  function GuardedExec(s: State, run: seq<Event>): State
    requires GuardedLegal(s, run)
    decreases |run|
  {
    if run == [] then s else GuardedExec(Apply(s, run[0]), run[1..])
  }

  /** `stopped` waits for the stream to be finished while holding the lock `finish` needs. */
  predicate Parked(s: State, c: nat) {
    && c < |s.calls| && s.calls[c].op.Stopped? && s.calls[c].phase == Awaiting
    && s.lock.holder == Some(c)
    && Writable(s.half)
  }

  /** Nothing short of the peer stopping, the connection dying or the waiter being cancelled -
      no amount of credit either - gets out of that state: no call waiting for the lock is ever
      served. */
  lemma {:induction false} ParkedFreezesTheHalf(s: State, c: nat, run: seq<Event>)
    requires Parked(s, c) && GuardedLegal(s, run)
    requires forall e :: e in run ==> !e.PeerStop? && !e.Lose? && e != Cancel(c)
    ensures Parked(GuardedExec(s, run), c) && GuardedExec(s, run).half == s.half.(credit := GuardedExec(s, run).half.credit)
    ensures |s.calls| <= |GuardedExec(s, run).calls|
    ensures forall i :: 0 <= i < |s.calls| && Unserved(s.calls[i]) ==> Unserved(GuardedExec(s, run).calls[i])
    decreases |run|
  {
    if run != [] {
      assert run[0] in run;
      assert forall e :: e in run[1..] ==> e in run;
      ParkedFreezesTheHalf(Apply(s, run[0]), c, run[1..]);
    }
  }

  lemma {:induction false} GuardedAppend(s: State, first: seq<Event>, second: seq<Event>)
    requires GuardedLegal(s, first) && GuardedLegal(GuardedExec(s, first), second)
    ensures GuardedLegal(s, first + second) && GuardedExec(s, first + second) == GuardedExec(GuardedExec(s, first), second)
    decreases |first|
  {
    if first == [] {
      assert first + second == second;
    } else {
      assert (first + second)[1..] == first[1..] + second;
      GuardedAppend(Apply(s, first[0]), first[1..], second);
    }
  }

  /** Such a state is reachable with a `finish` queued behind it. */
  lemma GuardedVariantDeadlocks() returns (run: seq<Event>)
    ensures GuardedLegal(INIT, run)
    ensures Parked(GuardedExec(INIT, run), 0)
    ensures GuardedExec(INIT, run).calls[1..] == [Call(Finish, Queued, 0)]
    ensures GuardedExec(INIT, run).lock.queue == [1]
  {
    var s1 := State([Call(Stopped, Queued, 0)], Lock(None, [0], []), INIT.half);
    var s2 := State([Call(Stopped, Holding, 0)], Lock(Some(0), [], [0]), INIT.half);
    var s3 := State([Call(Stopped, Awaiting, 0)], Lock(Some(0), [], [0]), INIT.half);
    assert GuardedExec(INIT, [Invoke(Stopped)]) == s1;
    assert GuardedExec(s1, [Event.Grant]) == s2;
    assert GuardedExec(s2, [Park]) == s3;
    GuardedAppend(s2, [Park], [Invoke(Finish)]);
    GuardedAppend(s1, [Event.Grant], [Park] + [Invoke(Finish)]);
    run := [Event.Grant] + ([Park] + [Invoke(Finish)]);
    GuardedAppend(INIT, [Invoke(Stopped)], run);
    run := [Invoke(Stopped)] + run;
  }
}
