/** The send half as the object its callers see. A call joins the queue, the calls ahead of it
    run - in whatever chunks the transport takes - until the lock is its own, and then it does
    its work. At every `await` anything may happen: other tasks call in, are cancelled or have
    their futures resolved, credit comes, the peer stops the stream, the connection goes, or the
    call itself is dropped - unless its caller is `keen`, and never drops it. Each method is one run
    of the transition system, from the state it finds. */
module SendObject {
  import opened Prelude
  import opened FifoLock
  import opened SendHalf
  import opened SendProgress
  import SendAnswers

  /** What may happen around call i without its doing. */
  predicate Outside(e: Event, i: nat) {
    e.Invoke? || e.Resolve? || (e.Cancel? && e.call != i) || e.Credit? || e.PeerStop? || e.PeerAck? || e.Lose?
  }

  lemma OutsideStep(s: State, i: nat, e: Event)
    requires Inv(s) && Pending(s, i) && Enabled(s, e) && Outside(e, i)
    ensures var t := Apply(s, e);
      && i < |t.calls| && t.calls[i] == s.calls[i]
      && (s.lock.holder == Some(i) ==> t.lock.holder == Some(i) && t.lock.granted == s.lock.granted)
      && (i !in s.lock.granted ==> i !in t.lock.granted)
      && Work(Upto(t.calls, i + 1)) <= Work(Upto(s.calls, i + 1))
  {
    AheadStep(s, e, i);
  }

  lemma {:induction false} OutsideRun(s: State, i: nat, run: seq<Event>)
    requires Inv(s) && Pending(s, i) && Legal(s, run) && forall e :: e in run ==> Outside(e, i)
    ensures var t := Exec(s, run);
      && Inv(t) && i < |t.calls| && t.calls[i] == s.calls[i]
      && (s.lock.holder == Some(i) ==> t.lock.holder == Some(i) && t.lock.granted == s.lock.granted)
      && (i !in s.lock.granted ==> i !in t.lock.granted)
      && Work(Upto(t.calls, i + 1)) <= Work(Upto(s.calls, i + 1))
    decreases |run|
  {
    if run != [] {
      assert run[0] in run;
      assert forall e :: e in run[1..] ==> e in run;
      OutsideStep(s, i, run[0]);
      StepKeepsInv(s, run[0]);
      OutsideRun(Apply(s, run[0]), i, run[1..]);
    }
  }

  /** While call i is queued, a call step either leaves it so or grants it the lock. */
  lemma QueuedUntilGranted(s: State, i: nat, e: Event)
    requires Inv(s) && i < |s.calls| && s.calls[i].phase == Queued
    requires Progress(e) && Enabled(s, e)
    ensures var t := Apply(s, e);
      && i < |t.calls|
      && if e.Grant? && s.lock.queue[0] == i then t.calls[i] == s.calls[i].(phase := Holding) && t.lock.holder == Some(i)
         else t.calls[i] == s.calls[i] && (i !in s.lock.granted ==> i !in t.lock.granted)
  {
    LockFacts(s);
    assert CallInv(s, i);
  }

  /** A call that never held the lock is nowhere in its history. */
  lemma QueuedIsNotGranted(s: State, i: nat)
    requires Inv(s) && i < |s.calls| && s.calls[i].phase == Queued
    ensures i !in s.lock.granted
  {
    assert CallInv(s, i);
  }

  /** The latest call to have held the lock has its part at the very end of the stream. */
  lemma FinalPart(s: State, i: nat)
    requires Inv(s) && i < |s.calls| && s.lock.granted != [] && Last(s.lock.granted) == i
    ensures s.half.written == Concatenated(s.calls, Front(s.lock.granted)) + Part(s.calls, i)
  {
  }

  class SendStream {
    var state: State

    ghost predicate Valid()
      reads this
    {
      Inv(state)
    }

    /** The object has come from `from` by the events of `run`. */
    ghost predicate After(from: State, run: seq<Event>)
      reads this
    {
      Inv(state) && Legal(from, run) && state == Exec(from, run)
    }

    constructor ()
      ensures Valid() && state == INIT
    {
      state := INIT;
    }

    method Take(ghost from: State, ghost past: seq<Event>, e: Event) returns (ghost run: seq<Event>)
      requires After(from, past) && Enabled(state, e)
      modifies this
      ensures After(from, run) && run == past + [e] && state == Apply(old(state), e)
    {
      StepKeepsInv(state, e);
      LegalAppend(from, past, [e]);
      run := past + [e];
      state := Apply(state, e);
    }

    /** Any number of events that are not call i's own. */
    method Interfere(ghost from: State, ghost past: seq<Event>, i: nat) returns (ghost run: seq<Event>)
      requires After(from, past) && Pending(state, i)
      modifies this
      ensures After(from, run) && i < |state.calls| && state.calls[i] == old(state).calls[i]
      ensures old(state).lock.holder == Some(i) ==> state.lock.holder == Some(i) && state.lock.granted == old(state).lock.granted
      ensures Work(Upto(state.calls, i + 1)) <= Work(Upto(old(state).calls, i + 1))
    {
      assert Legal(state, []);
      var others: seq<Event> :| Legal(state, others) && forall e :: e in others ==> Outside(e, i);
      OutsideRun(state, i, others);
      LegalAppend(from, past, others);
      run := past + others;
      state := Exec(state, others);
    }

    /** If a writer is out of credit, credit comes - or a stop, or the connection goes. */
    method AwaitCredit(ghost from: State, ghost past: seq<Event>) returns (ghost run: seq<Event>)
      requires After(from, past)
      modifies this
      ensures After(from, run) && !Starved(state)
      ensures state.calls == old(state).calls && state.lock == old(state).lock
    {
      run := past;
      if Starved(state) {
        var n, code: nat :| n > 0;
        var e: Event :| e == Credit(n) || e == PeerStop(code) || e == Lose;
        RelievedExactlyBy(state, e);
        run := Take(from, past, e);
      }
    }

    /** Whoever can move moves once; the transport picks the size of a chunk. */
    method Step(ghost from: State, ghost past: seq<Event>) returns (ghost e: Event, ghost run: seq<Event>)
      requires After(from, past) && Work(state.calls) > 0 && !Starved(state)
      modifies this
      ensures Progress(e) && Enabled(old(state), e) && state == Apply(old(state), e)
      ensures After(from, run) && run == past + [e]
    {
      NextStepEnabled(state);
      var next := NextStep(state);
      if next.Write? {
        var c := state.calls[state.lock.holder.value];
        var k: nat :| 1 <= k <= |c.op.data| - c.sent && k <= state.half.credit;
        next := Write(k);
      }
      e := next;
      run := Take(from, past, next);
    }

    /** One turn in the queue: the rest of the world moves, then the waiter is dropped or whoever
        can move does. */
    method Turn(ghost from: State, ghost past: seq<Event>, i: nat, keen: bool) returns (dropped: bool, ghost run: seq<Event>)
      requires After(from, past) && i < |state.calls| && state.calls[i].phase == Queued
      modifies this
      ensures After(from, run) && i < |state.calls|
      ensures dropped ==>
        !keen && Cancellable(state.calls[i].op) && state.calls[i] == old(state).calls[i].(phase := Done(Cancelled)) && i !in state.lock.granted
      ensures !dropped ==>
        && Work(Upto(state.calls, i + 1)) < Work(Upto(old(state).calls, i + 1))
        && (state.calls[i] == old(state).calls[i]
            || (state.calls[i] == old(state).calls[i].(phase := Holding) && state.lock.holder == Some(i)))
    {
      run := Interfere(from, past, i);
      dropped :| dropped ==> !keen && Cancellable(state.calls[i].op);
      if dropped {
        QueuedIsNotGranted(state, i);
        run := Take(from, run, Cancel(i));
        return;
      }
      run := AwaitCredit(from, run);
      WorkZero(state.calls);
      ghost var before := state;
      ghost var e;
      e, run := Step(from, run);
      QueuedUntilGranted(before, i, e);
      AheadStep(before, e, i);
    }

    /** `lock().await` and `blocking_lock`: returns holding the lock, after everyone who asked
        earlier and however many ask later - or, for an asynchronous call, dropped in the queue
        with nothing done. The work of the calls up to this one bounds the wait. */
    method Acquire(op: Op, keen: bool) returns (i: nat, held: bool, ghost run: seq<Event>)
      requires Valid() && !(op.Reset? && op.code >= VARINT_LIMIT)
      modifies this
      ensures After(old(state), run)
      ensures i == |old(state).calls| && i < |state.calls|
      ensures held ==> state.lock.holder == Some(i) && state.calls[i] == Call(op, Holding, 0)
      ensures !held ==> !keen && Cancellable(op) && state.calls[i] == Call(op, Done(Cancelled), 0) && i !in state.lock.granted
    {
      i := |state.calls|;
      run := Take(state, [], Invoke(op));
      while state.calls[i].phase == Queued
        invariant After(old(state), run) && i < |state.calls|
        invariant state.calls[i] == Call(op, Queued, 0) || (state.calls[i] == Call(op, Holding, 0) && state.lock.holder == Some(i))
        decreases Work(Upto(state.calls, i + 1))
      {
        var dropped: bool;
        dropped, run := Turn(old(state), run, i, keen);
        if dropped {
          return i, false, run;
        }
      }
      held := true;
    }

    /** One turn of `write_all`: the rest of the world moves, then the transport takes a chunk
        (`over` is None) or the write ends - failed, or dropped by the caller. */
    method WriteSome(ghost from: State, ghost past: seq<Event>, i: nat, keen: bool) returns (over: Option<Outcome>, ghost run: seq<Event>)
      requires After(from, past) && i < |state.calls| && state.lock.holder == Some(i)
      requires state.calls[i].op.SendBytes? && state.calls[i].sent < |state.calls[i].op.data|
      modifies this
      ensures After(from, run) && i < |state.calls| && state.calls[i].op == old(state).calls[i].op
      ensures state.lock.granted == old(state).lock.granted
      ensures over.None? ==>
        && state.lock.holder == Some(i)
        && old(state).calls[i].sent < state.calls[i].sent <= |state.calls[i].op.data|
      ensures over.Some? ==>
        && state.lock.holder.None? && state.calls[i].phase == Done(over.value)
        && state.calls[i].sent == old(state).calls[i].sent
        && ((over.value == Cancelled && !keen) || (over.value == Failed && !Writable(state.half)))
    {
      LockFacts(state);
      run := Interfere(from, past, i);
      LockFacts(state);
      var dropped: bool :| dropped ==> !keen;
      if dropped {
        run := Take(from, run, Cancel(i));
        return Some(Cancelled), run;
      }
      run := AwaitCredit(from, run);
      if !Writable(state.half) {
        run := Take(from, run, WriteFail);
        return Some(Failed), run;
      }
      var k: nat :| 1 <= k <= |state.calls[i].op.data| - state.calls[i].sent && k <= state.half.credit;
      run := Take(from, run, Write(k));
      over := None;
    }

    /** `send_bytes`: the guard is held over the whole of `write_all`. The call's bytes follow
        everything before it, nothing is inside them, and Ok means all of them are there. */
    method SendBytes(data: Bytes, keen: bool) returns (outcome: Outcome, ghost run: seq<Event>)
      requires Valid()
      modifies this
      ensures After(old(state), run)
      ensures var i := |old(state).calls|;
        && i < |state.calls| && state.calls[i].op == Op.SendBytes(data) && state.calls[i].phase == Done(outcome)
        && state.calls[i].sent <= |data|
        && (i in state.lock.granted ==>
              && Last(state.lock.granted) == i && state.lock.holder.None?
              && state.half.written == Concatenated(state.calls, Front(state.lock.granted)) + data[..state.calls[i].sent]
              && (outcome == Ok(None) <==> state.calls[i].sent == |data|)
              && (outcome == Ok(None) || outcome == Cancelled || (outcome == Failed && !Writable(state.half))))
        && (i !in state.lock.granted ==> outcome == Cancelled && state.calls[i].sent == 0)
        && (outcome == Cancelled <==> Cancel(i) in run) && (keen ==> outcome != Cancelled)
    {
      var i: nat, held: bool;
      i, held, run := Acquire(Op.SendBytes(data), keen);
      if !held {
        SendAnswers.CancelledExactlyWhenDropped(old(state), run, i);
        return Cancelled, run;
      }
      while state.calls[i].sent < |data|
        invariant After(old(state), run) && i < |state.calls| && state.lock.holder == Some(i)
        invariant state.calls[i].op == Op.SendBytes(data) && state.calls[i].sent <= |data|
        decreases |data| - state.calls[i].sent
      {
        var over: Option<Outcome>;
        over, run := WriteSome(old(state), run, i, keen);
        if over.Some? {
          SendAnswers.CancelledExactlyWhenDropped(old(state), run, i);
          FinalPart(state, i);
          return over.value, run;
        }
      }
      run := Take(old(state), run, Complete);
      outcome := Ok(None);
      SendAnswers.CancelledExactlyWhenDropped(old(state), run, i);
      FinalPart(state, i);
    }

    /** `finish`: dropped in the queue, or acts once it holds the lock, in the state `at`. It
        answers Failed exactly on a stream already finished or reset, and changes nothing then;
        otherwise the stream is finished - unless the peer had stopped it. */
    method Finish(keen: bool) returns (outcome: Outcome, ghost at: State, ghost run: seq<Event>)
      requires Valid()
      modifies this
      ensures After(old(state), run)
      ensures var i := |old(state).calls|;
        && i < |state.calls| && state.calls[i].op == Op.Finish && state.calls[i].phase == Done(outcome)
        && (outcome == Cancelled <==> Cancel(i) in run) && (keen ==> outcome != Cancelled)
      ensures outcome == Cancelled ==> state == at && |old(state).calls| !in state.lock.granted
      ensures outcome != Cancelled ==>
        && at.lock.holder == Some(|old(state).calls|) && state.lock.holder.None?
        && (outcome == Ok(None) <==> Open(at.half)) && (outcome == Failed <==> !Open(at.half))
        && state.half == if Open(at.half) && at.half.peerStop.None? then at.half.(sending := DataSent) else at.half
    {
      var i: nat, held: bool;
      i, held, run := Acquire(Op.Finish, keen);
      at := state;
      if !held {
        SendAnswers.CancelledExactlyWhenDropped(old(state), run, i);
        return Cancelled, at, run;
      }
      outcome := FinishHalf(state.half).1;
      run := Take(old(state), run, DoFinish);
      SendAnswers.CancelledExactlyWhenDropped(old(state), run, i);
    }

    /** `reset`: a code beyond the varint range is refused before the lock is touched. Otherwise
        it acts once it holds the lock, in the state `at`: it succeeds, and resets the stream,
        exactly when the stream is not yet acknowledged in full or reset, and changes nothing
        when it fails. */
    method Reset(code: nat) returns (outcome: Outcome, ghost at: State, ghost run: seq<Event>)
      requires Valid()
      modifies this
      ensures After(old(state), run)
      ensures var i := |old(state).calls|;
        i < |state.calls| && state.calls[i] == Call(Op.Reset(code), Done(outcome), 0)
      ensures code >= VARINT_LIMIT ==> outcome == Failed && state.lock == old(state).lock && state.half == old(state).half
      ensures code < VARINT_LIMIT ==>
        && at.lock.holder == Some(|old(state).calls|) && state.lock.holder.None?
        && (outcome == Ok(None) || outcome == Failed)
        && (outcome == Ok(None) <==> Open(at.half) || at.half.sending == DataSent)
        && state.half == if outcome == Ok(None) then at.half.(sending := ResetSent) else at.half
    {
      at := state;
      if code >= VARINT_LIMIT {
        run := Take(state, [], Invoke(Op.Reset(code)));
        return Failed, at, run;
      }
      var i: nat, held: bool;
      i, held, run := Acquire(Op.Reset(code), true);
      at := state;
      outcome := ResetHalf(state.half).1;
      run := Take(old(state), run, DoReset);
    }

    /** `stopped`: takes the lock, makes the future, and is off the lock before it waits. */
    method BeginStopped(keen: bool) returns (i: nat, waiting: bool, ghost run: seq<Event>)
      requires Valid()
      modifies this
      ensures After(old(state), run)
      ensures i == |old(state).calls| && i < |state.calls| && state.calls[i].op == Stopped
      ensures waiting ==> state.calls[i].phase == Awaiting && state.lock.holder.None?
      ensures !waiting ==> state.calls[i].phase == Done(Cancelled) && i !in state.lock.granted
      ensures (waiting <==> Cancel(i) !in run) && (keen ==> waiting)
    {
      i, waiting, run := Acquire(Op.Stopped, keen);
      if waiting {
        run := Take(old(state), run, Detach);
      }
      SendAnswers.CancelledExactlyWhenDropped(old(state), run, i);
    }

    /** The rest of `stopped`: everything may happen, then the future is ready and answers - the
        peer's code if the peer stopped the stream, None for a stream acknowledged in full, an error
        on a connection lost before either - or its caller drops it, and only then is it cancelled. */
    method AwaitStopped(i: nat, keen: bool) returns (outcome: Outcome, dropped: bool, ghost run: seq<Event>)
      requires Valid() && i < |state.calls| && state.calls[i].op == Stopped && state.calls[i].phase == Awaiting
      modifies this
      ensures After(old(state), run) && i < |state.calls| && state.calls[i].phase == Done(outcome)
      ensures run != [] && Last(run) == if dropped then Cancel(i) else Resolve(i)
      ensures (keen ==> !dropped) && (outcome == Cancelled <==> dropped) && (outcome == Cancelled <==> Cancel(i) in run)
      ensures !dropped && state.half.peerStop.Some? ==> outcome == Ok(state.half.peerStop)
      ensures !dropped && state.half.peerStop.None? && (state.half.sending == DataRecvd || state.half.sending == ResetRecvd) ==> outcome == Ok(None)
      ensures !dropped && state.half.peerStop.None? && state.half.sending != DataRecvd && state.half.sending != ResetRecvd ==>
        outcome == Failed && state.half.lost
    {
      SomeAnswer(state, i);
      var meanwhile: seq<Event> :| Legal(state, meanwhile) && i < |Exec(state, meanwhile).calls| && Exec(state, meanwhile).calls[i].phase == Awaiting
        && Resolved(Exec(state, meanwhile).half);
      RunKeepsInv(state, meanwhile);
      OpsNeverChange(state, meanwhile);
      state := Exec(state, meanwhile);
      dropped :| dropped ==> !keen;
      outcome := if dropped then Cancelled else Answer(state.half);
      run := Take(old(state), meanwhile, if dropped then Cancel(i) else Resolve(i));
      SendAnswers.CancelledExactlyWhenDropped(old(state), run, i);
    }
  }

  /** There is always a way on to an answer: at the latest when the connection is lost. */
  lemma SomeAnswer(s: State, i: nat)
    requires i < |s.calls| && s.calls[i].phase == Awaiting
    ensures Legal(s, [Lose]) && Exec(s, [Lose]).calls == s.calls && Resolved(Exec(s, [Lose]).half)
  {
    assert Legal(Apply(s, Lose), []);
  }
}
