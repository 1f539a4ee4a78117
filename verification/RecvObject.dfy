/** The receive half as the object its callers see: `recv` and `read_exact` allocate a buffer,
    take the lock, and have the buffer filled in place. At every `await` anything may happen: other
    readers call in or are cancelled, bytes, the end or a reset arrive, the connection goes, or the
    call itself is dropped - unless its caller is `keen`, and never drops it. Each method is one run of the transition system, from the state it
    finds. */
module RecvObject {
  import opened Prelude
  import opened FifoLock
  import opened RecvHalf
  import opened RecvSafety
  import RecvAnswers

  /** What may happen around call i without its doing. */
  predicate Outside(e: Event, i: nat) {
    e.Invoke? || (e.Cancel? && e.call != i) || e.Arrive? || e.FinArrive? || e.RstArrive? || e.Lose?
  }

  lemma OutsideStep(s: State, i: nat, e: Event)
    requires Inv(s) && Pending(s, i) && Enabled(s, e) && Outside(e, i)
    ensures var t := Apply(s, e);
      && i < |t.calls| && t.calls[i] == s.calls[i]
      && (s.lock.holder == Some(i) ==> t.lock.holder == Some(i) && t.lock.granted == s.lock.granted)
      && Work(Upto(t.calls, i + 1)) <= Work(Upto(s.calls, i + 1))
  {
    AheadStep(s, e, i);
  }

  lemma {:induction false} OutsideRun(s: State, i: nat, run: seq<Event>)
    requires Inv(s) && Pending(s, i) && Legal(s, run) && forall e :: e in run ==> Outside(e, i)
    ensures var t := Exec(s, run);
      && Inv(t) && i < |t.calls| && t.calls[i] == s.calls[i]
      && (s.lock.holder == Some(i) ==> t.lock.holder == Some(i) && t.lock.granted == s.lock.granted)
      && Work(Upto(t.calls, i + 1)) <= Work(Upto(s.calls, i + 1))
    decreases |run|
  {
    if run != [] {
      assert run[0] in run;
      assert forall e :: e in run[1..] ==> e in run;
      OutsideStep(s, i, run[0]);
      StepKeepsInv(s, run[0]);
      OutsideRun(Apply(s, run[0]), i, run[1..]);
    }
  }

  /** While call i is queued, a call step either leaves it so or grants it the lock. */
  lemma QueuedUntilGranted(s: State, i: nat, e: Event)
    requires Inv(s) && i < |s.calls| && s.calls[i].phase == Queued
    requires Progress(e) && Enabled(s, e)
    ensures var t := Apply(s, e);
      && i < |t.calls|
      && (t.calls[i] == s.calls[i] || (t.calls[i] == s.calls[i].(phase := Holding) && t.lock.holder == Some(i)))
  {
    LockFacts(s);
    assert CallInv(s, i);
  }

  /** What handing over a piece does to a call that collects pieces. */
  lemma PieceTaken(s: State, i: nat, k: nat)
    requires Enabled(s, Take(k)) && s.lock.holder == Some(i) && !s.calls[i].op.Recv?
    ensures var t := Apply(s, Take(k));
      && t.lock == s.lock && |t.calls| == |s.calls|
      && t.calls[i] == s.calls[i].(got := s.calls[i].got + s.half.feed[s.half.taken..s.half.taken + k])
  {
  }

  /** A holder that can neither return nor fail and is not starved has bytes to take. */
  lemma BytesAtHand(s: State, i: nat)
    requires Inv(s) && s.lock.holder == Some(i) && i < |s.calls| && Reader(s.calls[i].op) && !Starving(s)
    requires !CanReturn(s.half, s.calls[i]) && !CanFail(s.half, s.calls[i])
    ensures Intact(s.half) && s.half.taken < |s.half.feed| && Room(s.calls[i]) > 0
    ensures s.calls[i].op.ReadToEnd? ==> |s.half.feed| - s.half.taken <= Room(s.calls[i])
  {
    LockFacts(s);
  }

  /** The latest call to have held the lock has read right after everyone before it. */
  lemma ReadsNext(s: State, i: nat)
    requires Inv(s) && i < |s.calls| && s.lock.granted != [] && Last(s.lock.granted) == i
    ensures s.half.taken <= |s.half.feed|
    ensures Consumed(s.calls, Front(s.lock.granted)) + s.calls[i].got == s.half.feed[..s.half.taken]
  {
  }

  /** Why the holder's read failed. */
  lemma WhyFailed(s: State, i: nat)
    requires Inv(s) && s.lock.holder == Some(i) && Enabled(s, Fail)
    ensures var t := Apply(s, Fail);
      && i < |t.calls| && t.calls[i] == s.calls[i].(phase := Done(Failed)) && t.lock.holder.None?
      && match s.calls[i].op
         case Recv(_) => Troubled(t.half, i)
         case ReadExact(_) => Troubled(t.half, i) || AtEnd(t.half)
         case ReadToEnd(_) => Troubled(t.half, i) || OverLimit(t, i)
         case _ => false
  {
    StepKeepsInv(s, Fail);
    assert CallInv(Apply(s, Fail), i);
    LockFacts(s);
    if s.calls[i].op.ReadToEnd? {
      FailExplains(s, i);
    }
  }

  /** Copies a chunk into the buffer, as the library's read does. */
  method Fill(buf: array<Byte>, at: nat, chunk: Bytes)
    requires at + |chunk| <= buf.Length
    modifies buf
    ensures buf[..at] == old(buf[..at]) && buf[at..at + |chunk|] == chunk
    ensures buf[at + |chunk|..] == old(buf[at + |chunk|..])
  {
    for j := 0 to |chunk|
      invariant buf[..at] == old(buf[..at]) && buf[at..at + j] == chunk[..j]
      invariant buf[at + |chunk|..] == old(buf[at + |chunk|..])
    {
      buf[at + j] := chunk[j];
    }
  }

  /** The buffer holds what the call has got; the next chunk goes right after it. */
  method FillNext(buf: array<Byte>, got: Bytes, chunk: Bytes)
    requires |got| + |chunk| <= buf.Length && buf[..|got|] == got
    modifies buf
    ensures buf[..|got + chunk|] == got + chunk
  {
    Fill(buf, |got|, chunk);
    assert buf[..|got| + |chunk|] == buf[..|got|] + buf[|got|..|got| + |chunk|];
  }

  class RecvStream {
    var state: State

    ghost predicate Valid()
      reads this
    {
      Inv(state)
    }

    /** The object has come from `from` by the events of `run`. */
    ghost predicate After(from: State, run: seq<Event>)
      reads this
    {
      Inv(state) && Legal(from, run) && state == Exec(from, run)
    }

    constructor ()
      ensures Valid() && state == INIT
    {
      state := INIT;
    }

    method Act(ghost from: State, ghost past: seq<Event>, e: Event) returns (ghost run: seq<Event>)
      requires After(from, past) && Enabled(state, e)
      modifies this
      ensures After(from, run) && run == past + [e] && state == Apply(old(state), e)
    {
      StepKeepsInv(state, e);
      LegalAppend(from, past, [e]);
      run := past + [e];
      state := Apply(state, e);
    }

    /** Any number of events that are not call i's own; and if the reader that holds the lock is
        starved after them, something arrives: bytes, the end, a reset, or bad news. */
    method Await(ghost from: State, ghost past: seq<Event>, i: nat) returns (ghost run: seq<Event>)
      requires After(from, past) && Pending(state, i)
      modifies this
      ensures After(from, run) && !Starving(state)
      ensures i < |state.calls| && state.calls[i] == old(state).calls[i]
      ensures old(state).lock.holder == Some(i) ==> state.lock.holder == Some(i) && state.lock.granted == old(state).lock.granted
      ensures Work(Upto(state.calls, i + 1)) <= Work(Upto(old(state).calls, i + 1))
    {
      assert Legal(state, []);
      var others: seq<Event> :| Legal(state, others) && forall e :: e in others ==> Outside(e, i);
      OutsideRun(state, i, others);
      LegalAppend(from, past, others);
      run := past + others;
      state := Exec(state, others);
      if Starving(state) {
        assert [0 as Byte] != [];
        var bytes: Bytes :| bytes != [];
        var e: Event :| e == Arrive(bytes) || e == FinArrive || e == RstArrive || e == Lose;
        EnvironmentUnblocks(state, e);
        run := Act(from, run, e);
      }
    }

    /** `lock().await` and `blocking_lock`: returns holding the lock with nothing taken, after
        everyone who asked earlier and however many ask later - or, for an asynchronous call,
        dropped in the queue. The work of the calls up to this one bounds the wait. */
    method Acquire(op: Op, keen: bool) returns (i: nat, held: bool, ghost run: seq<Event>)
      requires Valid() && !(op.Stop? && op.code >= VARINT_LIMIT)
      modifies this
      ensures After(old(state), run)
      ensures i == |old(state).calls| && i < |state.calls|
      ensures held ==> state.lock.holder == Some(i) && state.calls[i] == Call(op, Holding, [])
      ensures !held ==> !keen && Reader(op) && state.calls[i] == Call(op, Done(Cancelled), [])
    {
      i := |state.calls|;
      run := Act(state, [], Invoke(op));
      while state.calls[i].phase == Queued
        invariant After(old(state), run) && i < |state.calls|
        invariant state.calls[i] == Call(op, Queued, []) || (state.calls[i] == Call(op, Holding, []) && state.lock.holder == Some(i))
        decreases Work(Upto(state.calls, i + 1))
      {
        run := Await(old(state), run, i);
        var dropped: bool :| dropped ==> !keen && Reader(op);
        if dropped {
          run := Act(old(state), run, Cancel(i));
          return i, false, run;
        }
        NextStepEnabled(state);
        var e := NextStep(state);
        QueuedUntilGranted(state, i, e);
        AheadStep(state, e, i);
        run := Act(old(state), run, e);
      }
      held := true;
    }

    /** The holder's read ends without an answer: dropped by the caller, or failed. */
    method GiveUp(ghost from: State, ghost past: seq<Event>, i: nat, dropped: bool) returns (outcome: Outcome, ghost run: seq<Event>)
      requires After(from, past) && state.lock.holder == Some(i) && i < |state.calls| && Reader(state.calls[i].op)
      requires !dropped ==> CanFail(state.half, state.calls[i])
      modifies this
      ensures After(from, run) && i < |state.calls| && state.calls[i] == old(state).calls[i].(phase := Done(outcome))
      ensures outcome == if dropped then Cancelled else Failed
      ensures outcome == Failed ==>
        match state.calls[i].op
        case Recv(_) => Troubled(state.half, i)
        case ReadExact(_) => Troubled(state.half, i) || AtEnd(state.half)
        case ReadToEnd(_) => Troubled(state.half, i) || OverLimit(state, i)
        case _ => false
    {
      LockFacts(state);
      if dropped {
        run := Act(from, past, Cancel(i));
        outcome := Cancelled;
      } else {
        WhyFailed(state, i);
        run := Act(from, past, Fail);
        outcome := Failed;
      }
    }

    /** `recv`'s single read: at least one buffered byte goes to the front of the buffer. */
    method ReadOnce(ghost from: State, ghost past: seq<Event>, i: nat, buf: array<Byte>) returns (n: nat, ghost run: seq<Event>)
      requires After(from, past)
      requires i < |state.calls| && state.lock.holder == Some(i) && state.calls[i] == Call(Op.Recv(buf.Length), Holding, [])
      requires !Starving(state) && !CanReturn(state.half, state.calls[i]) && !CanFail(state.half, state.calls[i])
      modifies this, buf
      ensures After(from, run)
      ensures 1 <= n <= buf.Length && i < |state.calls| && state.calls[i] == Call(Op.Recv(buf.Length), Done(Ok(Some(buf[..n]))), buf[..n])
      ensures state.lock.granted == old(state).lock.granted
    {
      BytesAtHand(state, i);
      n :| 1 <= n <= buf.Length && n <= |state.half.feed| - state.half.taken;
      var chunk := state.half.feed[state.half.taken..state.half.taken + n];
      Fill(buf, 0, chunk);
      assert buf[..n] == buf[0..n] == chunk;
      assert [] + chunk == chunk;
      run := Act(from, past, Take(n));
    }

    /** `recv(max)`: allocates, takes the lock, reads once, truncates. Some(bytes) are the next
        bytes of the peer's stream, at least one of them when max > 0; None means the stream is
        finished and used up; otherwise nothing was taken. */
    method Recv(max: nat, keen: bool) returns (outcome: Outcome, ghost run: seq<Event>)
      requires Valid()
      modifies this
      ensures After(old(state), run)
      ensures var i := |old(state).calls|;
        && i < |state.calls| && state.calls[i].op == Op.Recv(max) && state.calls[i].phase == Done(outcome)
        && (outcome.Ok? && outcome.data.Some? ==>
              && |outcome.data.value| <= max && (max > 0 ==> outcome.data.value != [])
              && state.lock.granted != [] && Last(state.lock.granted) == i && state.half.taken <= |state.half.feed|
              && Consumed(state.calls, Front(state.lock.granted)) + outcome.data.value == state.half.feed[..state.half.taken])
        && (outcome == Ok(None) ==> max > 0 && AtEnd(state.half))
        && (max == 0 ==> outcome == Ok(Some([])) || outcome == Cancelled)
        && (!outcome.Ok? ==> state.calls[i].got == [])
        && (outcome == Failed ==> Troubled(state.half, i))
        && (outcome == Cancelled <==> Cancel(i) in run) && (keen ==> outcome != Cancelled)
    {
      var buf := new Byte[max](_ => 0);
      var i: nat, held: bool;
      i, held, run := Acquire(Op.Recv(max), keen);
      if !held {
        RecvAnswers.CancelledExactlyWhenDropped(old(state), run, i);
        return Cancelled, run;
      }
      run := Await(old(state), run, i);
      var dropped: bool :| dropped ==> !keen && max > 0;
      if dropped || CanFail(state.half, state.calls[i]) {
        outcome, run := GiveUp(old(state), run, i, dropped);
      } else if CanReturn(state.half, state.calls[i]) {
        run := Act(old(state), run, Return);
        ReadsNext(state, i);
        outcome := if max == 0 then Ok(Some(buf[..0])) else Ok(None);
      } else {
        var n: nat;
        n, run := ReadOnce(old(state), run, i, buf);
        ReadsNext(state, i);
        outcome := Ok(Some(buf[..n]));
      }
      RecvAnswers.CancelledExactlyWhenDropped(old(state), run, i);
    }

    /** One piece of a `read_exact`: some of the buffered bytes go to the buffer's free end. */
    method TakePiece(ghost from: State, ghost past: seq<Event>, i: nat, buf: array<Byte>) returns (ghost run: seq<Event>)
      requires After(from, past)
      requires i < |state.calls| && state.lock.holder == Some(i) && state.calls[i].op == Op.ReadExact(buf.Length)
      requires |state.calls[i].got| < buf.Length && buf[..|state.calls[i].got|] == state.calls[i].got
      requires !Starving(state) && !CanFail(state.half, state.calls[i])
      modifies this, buf
      ensures After(from, run)
      ensures i < |state.calls| && state.lock.holder == Some(i) && state.calls[i].op == Op.ReadExact(buf.Length)
      ensures |old(state).calls[i].got| < |state.calls[i].got| <= buf.Length
      ensures buf[..|state.calls[i].got|] == state.calls[i].got
    {
      BytesAtHand(state, i);
      var got := state.calls[i].got;
      var k: nat :| 1 <= k <= buf.Length - |got| && k <= |state.half.feed| - state.half.taken;
      PieceTaken(state, i, k);
      FillNext(buf, got, state.half.feed[state.half.taken..state.half.taken + k]);
      run := Act(from, past, Take(k));
    }

    /** `read_exact(n)`: keeps the guard, and the buffer fills piece by piece. Ok means exactly
        the next n bytes. A failure has its reason in the stream: trouble, or an end that came
        too soon. */
    method ReadExact(n: nat, keen: bool) returns (outcome: Outcome, ghost run: seq<Event>)
      requires Valid()
      modifies this
      ensures After(old(state), run)
      ensures var i := |old(state).calls|;
        && i < |state.calls| && state.calls[i].op == Op.ReadExact(n) && state.calls[i].phase == Done(outcome)
        && (outcome.Ok? ==>
              && outcome.data.Some? && |outcome.data.value| == n
              && state.lock.granted != [] && Last(state.lock.granted) == i && state.half.taken <= |state.half.feed|
              && Consumed(state.calls, Front(state.lock.granted)) + outcome.data.value == state.half.feed[..state.half.taken])
        && (outcome == Failed ==> |state.calls[i].got| < n && (Troubled(state.half, i) || AtEnd(state.half)))
        && (outcome == Cancelled <==> Cancel(i) in run) && (keen ==> outcome != Cancelled)
    {
      var buf := new Byte[n](_ => 0);
      var i: nat, held: bool;
      i, held, run := Acquire(Op.ReadExact(n), keen);
      if !held {
        RecvAnswers.CancelledExactlyWhenDropped(old(state), run, i);
        return Cancelled, run;
      }
      while |state.calls[i].got| < n
        invariant After(old(state), run)
        invariant i < |state.calls| && state.lock.holder == Some(i)
        invariant state.calls[i].op == Op.ReadExact(n) && |state.calls[i].got| <= n
        invariant buf[..|state.calls[i].got|] == state.calls[i].got
        decreases n - |state.calls[i].got|
      {
        LockFacts(state);
        run := Await(old(state), run, i);
        var dropped: bool :| dropped ==> !keen;
        if dropped || CanFail(state.half, state.calls[i]) {
          outcome, run := GiveUp(old(state), run, i, dropped);
          RecvAnswers.CancelledExactlyWhenDropped(old(state), run, i);
          return outcome, run;
        }
        run := TakePiece(old(state), run, i, buf);
      }
      LockFacts(state);
      run := Act(old(state), run, Return);
      ReadsNext(state, i);
      outcome := Ok(Some(buf[..]));
      assert buf[..] == buf[..n];
      RecvAnswers.CancelledExactlyWhenDropped(old(state), run, i);
    }

    /** One turn of `read_to_end`: everything else moves, then a piece is taken (`over` is None),
        or the call ends. */
    method Collect(ghost from: State, ghost past: seq<Event>, i: nat, keen: bool) returns (over: Option<Outcome>, ghost run: seq<Event>)
      requires After(from, past)
      requires i < |state.calls| && state.lock.holder == Some(i) && state.calls[i].op.ReadToEnd?
      modifies this
      ensures After(from, run) && i < |state.calls| && state.calls[i].op == old(state).calls[i].op
      ensures over.None? ==>
        && state.lock.holder == Some(i)
        && |old(state).calls[i].got| < |state.calls[i].got| <= state.calls[i].op.max
      ensures over.Some? ==> state.calls[i].phase == Done(over.value)
      ensures over.Some? && over.value.Ok? ==>
        state.lock.granted != [] && Last(state.lock.granted) == i && over.value == Ok(Some(state.calls[i].got)) && AtEnd(state.half)
      ensures over == Some(Failed) ==> Troubled(state.half, i) || OverLimit(state, i)
      ensures keen ==> over != Some(Cancelled)
    {
      LockFacts(state);
      run := Await(from, past, i);
      LockFacts(state);
      var dropped: bool :| dropped ==> !keen;
      if dropped || CanFail(state.half, state.calls[i]) {
        var outcome: Outcome;
        outcome, run := GiveUp(from, run, i, dropped);
        over := Some(outcome);
      } else if CanReturn(state.half, state.calls[i]) {
        over := Some(Ok(Some(state.calls[i].got)));
        run := Act(from, run, Return);
      } else {
        BytesAtHand(state, i);
        var k: nat :| 1 <= k <= |state.half.feed| - state.half.taken;
        PieceTaken(state, i, k);
        run := Act(from, run, Take(k));
        over := None;
      }
    }

    /** `read_to_end(max)`: Ok is all that is left of the peer's finished stream, within max. A
        failure has its reason in the stream: trouble not of this call's making, or more bytes,
        past what earlier calls took, than max. */
    method ReadToEnd(max: nat, keen: bool) returns (outcome: Outcome, ghost run: seq<Event>)
      requires Valid()
      modifies this
      ensures After(old(state), run)
      ensures var i := |old(state).calls|;
        && i < |state.calls| && state.calls[i].op == Op.ReadToEnd(max) && state.calls[i].phase == Done(outcome)
        && (outcome.Ok? ==>
              && outcome.data.Some? && |outcome.data.value| <= max && AtEnd(state.half)
              && state.lock.granted != [] && Last(state.lock.granted) == i
              && Consumed(state.calls, Front(state.lock.granted)) + outcome.data.value == state.half.feed)
        && (outcome == Failed ==> state.half.spoiled.Some? && (Troubled(state.half, i) || OverLimit(state, i)))
        && (outcome == Cancelled <==> Cancel(i) in run) && (keen ==> outcome != Cancelled)
    {
      var i: nat, held: bool;
      i, held, run := Acquire(Op.ReadToEnd(max), keen);
      if !held {
        RecvAnswers.CancelledExactlyWhenDropped(old(state), run, i);
        return Cancelled, run;
      }
      var over: Option<Outcome> := None;
      while over.None?
        invariant After(old(state), run) && i < |state.calls| && state.calls[i].op == Op.ReadToEnd(max)
        invariant over.None? ==> state.lock.holder == Some(i) && |state.calls[i].got| <= max
        invariant over.Some? ==> state.calls[i].phase == Done(over.value)
        invariant over.Some? && over.value.Ok? ==>
          state.lock.granted != [] && Last(state.lock.granted) == i && over.value == Ok(Some(state.calls[i].got)) && AtEnd(state.half)
        invariant over == Some(Failed) ==> Troubled(state.half, i) || OverLimit(state, i)
        invariant keen ==> over != Some(Cancelled)
        decreases over.None?, max - |state.calls[i].got|
      {
        over, run := Collect(old(state), run, i, keen);
      }
      outcome := over.value;
      RecvAnswers.CancelledExactlyWhenDropped(old(state), run, i);
      assert CallInv(state, i);
      if outcome.Ok? {
        ReadsNext(state, i);
        assert state.half.feed[..state.half.taken] == state.half.feed;
      }
    }

    /** `stop`: a code beyond the varint range is refused before the lock is touched. Otherwise it
        acts once it holds the lock, in the state `at`: it succeeds, and the peer will be told
        exactly this code, exactly when the half was not stopped yet, and changes nothing when it
        fails. */
    method Stop(code: nat) returns (outcome: Outcome, ghost at: State, ghost run: seq<Event>)
      requires Valid()
      modifies this
      ensures After(old(state), run)
      ensures var i := |old(state).calls|;
        i < |state.calls| && state.calls[i] == Call(Op.Stop(code), Done(outcome), [])
      ensures code >= VARINT_LIMIT ==> outcome == Failed && state.lock == old(state).lock && state.half == old(state).half
      ensures code < VARINT_LIMIT ==>
        && at.lock.holder == Some(|old(state).calls|) && state.lock.holder.None?
        && (outcome == Ok(None) <==> at.half.stop.None?) && (outcome == Failed <==> at.half.stop.Some?)
        && state.half == if outcome == Ok(None) then at.half.(stop := Some(code)) else at.half
    {
      at := state;
      if code >= VARINT_LIMIT {
        run := Act(state, [], Invoke(Op.Stop(code)));
        return Failed, at, run;
      }
      var i: nat, held: bool;
      i, held, run := Acquire(Op.Stop(code), true);
      at := state;
      var first := state.half.stop.None?;
      run := Act(old(state), run, DoStop(first));
      outcome := if first then Ok(None) else Failed;
    }
  }
}
