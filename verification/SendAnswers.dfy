/** What each caller of a send half is told, as a function of the stream at the moment it is told;
    and that it is told nothing else, ever. */
module SendAnswers {
  import opened Prelude
  import opened FifoLock
  import opened SendHalf

  predicate Acknowledged(h: Half) {
    h.sending == DataRecvd || h.sending == ResetRecvd
  }

  /** What the future behind `stopped` is to say: the peer's code if the peer stopped the stream,
      None if all of it is acknowledged, an error if the connection went before either. */
  predicate StoppedSays(h: Half, o: Outcome) {
    if h.peerStop.Some? then o == Ok(h.peerStop)
    else if Acknowledged(h) then o == Ok(None)
    else h.lost && o == Failed
  }

  /** Event e, in state s, ends call i with answer o. A call is cancelled by its own cancellation
      and by nothing else; otherwise `send_bytes` is Ok when all its bytes are on the stream and
      fails when they are not and the stream takes no more, `finish` is Ok on an open stream,
      `reset` on one not yet acknowledged or reset, and a bad reset code fails at once. */
  predicate Ends(s: State, e: Event, i: nat, o: Outcome) {
    if i < |s.calls| then
      var c := s.calls[i];
      && !c.phase.Done?
      && (o == Cancelled <==> e == Cancel(i))
      && (o != Cancelled ==>
            match c.op
            case SendBytes(data) => if c.sent == |data| then o == Ok(None) else o == Failed && !Writable(s.half)
            case Finish => o == if Open(s.half) then Ok(None) else Failed
            case Reset(_) => o == if Open(s.half) || s.half.sending == DataSent then Ok(None) else Failed
            case Stopped => e == Resolve(i) && StoppedSays(s.half, o)
            case Query => e.DoQuery? && o == if e.ok then Ok(None) else Failed)
    else
      i == |s.calls| && e.Invoke? && e.op.Reset? && e.op.code >= VARINT_LIMIT && o == Failed
  }

  predicate Over(s: State, i: nat) {
    i < |s.calls| && s.calls[i].phase.Done?
  }

  lemma StepEnds(s: State, e: Event, i: nat)
    requires Inv(s) && Enabled(s, e) && !Over(s, i) && Over(Apply(s, e), i)
    ensures Ends(s, e, i, Apply(s, e).calls[i].phase.outcome)
  {
    LockFacts(s);
    if i < |s.calls| {
      assert CallInv(s, i);
    }
  }

  lemma StepKeepsAnswer(s: State, e: Event, i: nat)
    requires Inv(s) && Enabled(s, e) && Over(s, i)
    ensures Over(Apply(s, e), i) && Apply(s, e).calls[i] == s.calls[i]
  {
    LockFacts(s);
    assert CallInv(s, i);
  }

  /** An answer once given is never changed. */
  lemma {:induction false} AnswersAreFinal(s: State, run: seq<Event>, i: nat)
    requires Inv(s) && Legal(s, run) && Over(s, i)
    ensures Over(Exec(s, run), i) && Exec(s, run).calls[i] == s.calls[i]
    decreases |run|
  {
    if run != [] {
      StepKeepsAnswer(s, run[0], i);
      StepKeepsInv(s, run[0]);
      AnswersAreFinal(Apply(s, run[0]), run[1..], i);
    }
  }

  /** Every answer has its moment: a call that is over was ended by one event of the run, and told
      what the stream called for where that event happened. */
  lemma {:induction false} EveryAnswerHasItsMoment(s: State, run: seq<Event>, i: nat) returns (k: nat)
    requires Inv(s) && Legal(s, run) && !Over(s, i) && Over(Exec(s, run), i)
    ensures k < |run| && Legal(s, run[..k]) && Enabled(Exec(s, run[..k]), run[k])
    ensures Ends(Exec(s, run[..k]), run[k], i, Exec(s, run).calls[i].phase.outcome)
    decreases |run|
  {
    var t := Apply(s, run[0]);
    StepKeepsInv(s, run[0]);
    if Over(t, i) {
      k := 0;
      StepEnds(s, run[0], i);
      AnswersAreFinal(t, run[1..], i);
      assert run[..0] == [];
    } else {
      var j := EveryAnswerHasItsMoment(t, run[1..], i);
      k := j + 1;
      assert run[..k][1..] == run[1..][..j] && run[..k][0] == run[0];
    }
  }

  lemma StepCancels(s: State, e: Event, i: nat)
    requires Inv(s) && Enabled(s, e)
    ensures (Over(Apply(s, e), i) && Apply(s, e).calls[i].phase == Done(Cancelled))
      <==> (Over(s, i) && s.calls[i].phase == Done(Cancelled)) || e == Cancel(i)
  {
    if Over(s, i) {
      StepKeepsAnswer(s, e, i);
    } else if Over(Apply(s, e), i) {
      StepEnds(s, e, i);
    }
  }

  /** A call is cancelled exactly when its caller dropped it. */
  lemma {:induction false} CancelledExactlyWhenDropped(s: State, run: seq<Event>, i: nat)
    requires Inv(s) && Legal(s, run)
    ensures (Over(Exec(s, run), i) && Exec(s, run).calls[i].phase == Done(Cancelled))
      <==> (Over(s, i) && s.calls[i].phase == Done(Cancelled)) || Cancel(i) in run
    decreases |run|
  {
    if run != [] {
      StepCancels(s, run[0], i);
      StepKeepsInv(s, run[0]);
      CancelledExactlyWhenDropped(Apply(s, run[0]), run[1..], i);
      assert Cancel(i) in run <==> run[0] == Cancel(i) || Cancel(i) in run[1..];
    }
  }

  /** Every asynchronous call that is not over can be dropped, and that frees its place. */
  lemma UnfinishedCallsCanBeDropped(run: seq<Event>, i: nat)
    requires Legal(INIT, run) && i < |Exec(INIT, run).calls|
    ensures var s := Exec(INIT, run);
      !s.calls[i].phase.Done? && (s.calls[i].op.SendBytes? || s.calls[i].op.Finish? || s.calls[i].op.Stopped?) ==>
        && Enabled(s, Cancel(i))
        && Apply(s, Cancel(i)).half == s.half && Apply(s, Cancel(i)).lock.granted == s.lock.granted
        && Apply(s, Cancel(i)).lock.holder != Some(i) && i !in Apply(s, Cancel(i)).lock.queue
  {
    RunKeepsInv(INIT, run);
    if Enabled(Exec(INIT, run), Cancel(i)) {
      StepKeepsOutOfLock(Exec(INIT, run), i);
    }
  }

  lemma StepKeepsOutOfLock(s: State, i: nat)
    requires Inv(s) && i < |s.calls| && Enabled(s, Cancel(i))
    ensures Apply(s, Cancel(i)).lock.holder != Some(i) && i !in Apply(s, Cancel(i)).lock.queue
  {
    assert CallInv(s, i);
    StepKeepsInv(s, Cancel(i));
    assert CallInv(Apply(s, Cancel(i)), i);
  }

  /** Calling in, waiting, being granted the lock, returning, resolving, failing and being dropped
      leave the stream exactly as it is: only writing, finishing and resetting are a caller's ways to
      change it, and the environment's events each change the one thing they report. */
  lemma OnlyTheseChangeTheStream(s: State, e: Event)
    requires Inv(s) && Enabled(s, e)
    ensures var h := s.half; var k := Apply(s, e).half;
      if e.Write? then k == h.(written := k.written, sending := Send, credit := k.credit)
      else if e.DoFinish? || e.DoReset? then k == h.(sending := k.sending)
      else if e.Credit? then k == h.(credit := h.credit + e.n)
      else if e.PeerStop? then k == h.(peerStop := Some(e.code))
      else if e.PeerAck? then k == h.(sending := if h.sending == DataSent then DataRecvd else ResetRecvd)
      else if e.Lose? then k == h.(lost := true)
      else k == h
  {
  }

  // ------------------------------------------------------------------ stopped

  predicate Waits(s: State, i: nat) {
    i < |s.calls| && s.calls[i].op.Stopped? && s.calls[i].phase == Awaiting
  }

  /** In every reachable state a waiting `stopped` can return exactly when there is something to
      say, and then returns exactly that. */
  lemma WaitingStoppedAnswers(run: seq<Event>, i: nat)
    requires Legal(INIT, run) && Waits(Exec(INIT, run), i)
    ensures var s := Exec(INIT, run);
      && (Enabled(s, Resolve(i)) <==> exists o :: StoppedSays(s.half, o))
      && (Enabled(s, Resolve(i)) ==> Over(Apply(s, Resolve(i)), i) && StoppedSays(s.half, Apply(s, Resolve(i)).calls[i].phase.outcome))
  {
    var s := Exec(INIT, run);
    RunKeepsInv(INIT, run);
    if Enabled(s, Resolve(i)) {
      StepEnds(s, Resolve(i), i);
    }
  }

  lemma CodeStep(s: State, e: Event, i: nat, code: nat)
    requires Inv(s) && Enabled(s, e) && s.half.peerStop == Some(code) && Waits(s, i)
    ensures Apply(s, e).half.peerStop == Some(code)
    ensures if e == Resolve(i) then Over(Apply(s, e), i) && Apply(s, e).calls[i].phase == Done(Ok(Some(code)))
            else if e == Cancel(i) then Over(Apply(s, e), i) && Apply(s, e).calls[i].phase == Done(Cancelled)
            else Waits(Apply(s, e), i)
  {
    LockFacts(s);
    assert CallInv(s, i);
  }

  lemma {:induction false} CodeRun(s: State, run: seq<Event>, i: nat, code: nat)
    requires Inv(s) && Legal(s, run) && s.half.peerStop == Some(code) && Waits(s, i)
    ensures var t := Exec(s, run);
      && i < |t.calls| && t.half.peerStop == Some(code)
      && (t.calls[i].phase == Done(Ok(Some(code))) <==> Resolve(i) in run)
      && (t.calls[i].phase == Done(Cancelled) <==> Cancel(i) in run)
      && (Waits(t, i) || t.calls[i].phase == Done(Ok(Some(code))) || t.calls[i].phase == Done(Cancelled))
    decreases |run|
  {
    if run != [] {
      var e := run[0];
      CodeStep(s, e, i, code);
      StepKeepsInv(s, e);
      assert forall x :: x in run <==> x == e || x in run[1..];
      if Over(Apply(s, e), i) {
        AnswersAreFinal(Apply(s, e), run[1..], i);
        NoMoreEvents(Apply(s, e), run[1..], i);
        StopStays(Apply(s, e), run[1..]);
      } else {
        CodeRun(Apply(s, e), run[1..], i, code);
      }
    }
  }

  lemma {:induction false} StopStays(s: State, run: seq<Event>)
    requires Legal(s, run) && s.half.peerStop.Some?
    ensures Exec(s, run).half.peerStop == s.half.peerStop
    decreases |run|
  {
    if run != [] {
      StopStays(Apply(s, run[0]), run[1..]);
    }
  }

  /** Nothing resolves or cancels a call that is over. */
  lemma {:induction false} NoMoreEvents(s: State, run: seq<Event>, i: nat)
    requires Inv(s) && Legal(s, run) && Over(s, i)
    ensures Resolve(i) !in run && Cancel(i) !in run
    decreases |run|
  {
    if run != [] {
      StepKeepsAnswer(s, run[0], i);
      StepKeepsInv(s, run[0]);
      NoMoreEvents(Apply(s, run[0]), run[1..], i);
    }
  }

  /** Once the peer has stopped the stream, over every run: a waiting `stopped` can return, returns
      the peer's code exactly when it does, is cancelled exactly when it is dropped, and comes to
      no other end. */
  lemma StoppedTellsThePeersCode(past: seq<Event>, i: nat, code: nat, run: seq<Event>)
    requires Legal(INIT, past) && Waits(Exec(INIT, past), i) && Exec(INIT, past).half.peerStop == Some(code)
    requires Legal(Exec(INIT, past), run)
    ensures var t := Exec(Exec(INIT, past), run);
      && i < |t.calls|
      && (t.calls[i].phase == Done(Ok(Some(code))) <==> Resolve(i) in run)
      && (t.calls[i].phase == Done(Cancelled) <==> Cancel(i) in run)
      && (t.calls[i].phase == Awaiting || t.calls[i].phase == Done(Ok(Some(code))) || t.calls[i].phase == Done(Cancelled))
      && (t.calls[i].phase == Awaiting ==>
            Enabled(t, Resolve(i)) && |Apply(t, Resolve(i)).calls| == |t.calls| && Apply(t, Resolve(i)).calls[i].phase == Done(Ok(Some(code))))
  {
    var s := Exec(INIT, past);
    RunKeepsInv(INIT, past);
    CodeRun(s, run, i, code);
    RunKeepsInv(s, run);
    var t := Exec(s, run);
    if t.calls[i].phase == Awaiting {
      CodeStep(t, Resolve(i), i, code);
    }
  }
}
