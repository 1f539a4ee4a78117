/** What becomes of every connection and of every `accept_conn` and `accept_next` call, read off the
    events of a run. */
module AcceptSafety {
  import opened Prelude
  import opened AcceptQueue

  // ------------------------------------------------------------ connections

  /** The event takes connection c out of play: the call that holds it fails or is cancelled, or
      the endpoint closes with c still queued. */
  predicate Discards(s: State, e: Event, c: nat) {
    match e
    case HandshakeFail(i) => i < |s.calls| && c in HeldBy(s.calls[i])
    case StreamFail(i) => i < |s.calls| && c in HeldBy(s.calls[i])
    case Cancel(i) => i < |s.calls| && c in HeldBy(s.calls[i])
    case Close => c in s.queue
    case _ => false
  }

  /** The event gives connection c to a caller: the handshake inside `accept_conn`, or the stream
      inside `accept_next`, succeeds. */
  predicate HandsOut(s: State, e: Event, c: nat) {
    match e
    case HandshakeOk(i) => i < |s.calls| && s.calls[i].op == AcceptConn && c in HeldBy(s.calls[i])
    case StreamOk(i) => i < |s.calls| && c in HeldBy(s.calls[i])
    case _ => false
  }

  /** Some event of the run, where it happens, satisfies p. */
  predicate Sometime(s: State, run: seq<Event>, p: (State, Event) -> bool)
    requires Legal(s, run)
    decreases |run|
  {
    run != [] && (p(s, run[0]) || Sometime(Apply(s, run[0]), run[1..], p))
  }

  lemma StepAccounts(s: State, e: Event, c: nat)
    requires Enabled(s, e)
    ensures c in Apply(s, e).dropped <==> c in s.dropped || Discards(s, e, c)
    ensures c in Apply(s, e).delivered <==> c in s.delivered || HandsOut(s, e, c)
  {
  }

  /** A connection is dropped exactly when the call that held it met a handshake failure, a stream
      failure or a cancellation, or when it was still queued at shutdown; and it is delivered
      exactly when the handshake of the `accept_conn`, or the stream of the `accept_next`, that
      held it succeeded. */
  lemma {:induction false} DroppedAndDeliveredExactlyWhen(s: State, run: seq<Event>, c: nat)
    requires Legal(s, run)
    ensures c in Exec(s, run).dropped <==> c in s.dropped || Sometime(s, run, (q, e) => Discards(q, e, c))
    ensures c in Exec(s, run).delivered <==> c in s.delivered || Sometime(s, run, (q, e) => HandsOut(q, e, c))
    decreases |run|
  {
    if run != [] {
      StepAccounts(s, run[0], c);
      DroppedAndDeliveredExactlyWhen(Apply(s, run[0]), run[1..], c);
    }
  }

  // ------------------------------------------------------------------ answers

  function Ops(run: seq<Event>): seq<Op> {
    if run == [] then []
    else (if run[0].Invoke? then [run[0].op] else []) + Ops(run[1..])
  }

  function OpsOf(calls: seq<Call>): (r: seq<Op>)
    ensures |r| == |calls| && forall i :: 0 <= i < |r| ==> r[i] == calls[i].op
  {
    seq(|calls|, i requires 0 <= i < |calls| => calls[i].op)
  }

  /** The calls are those the run invoked, in order. */
  lemma {:induction false} CallsAreThoseInvoked(s: State, run: seq<Event>)
    requires Legal(s, run)
    ensures OpsOf(Exec(s, run).calls) == OpsOf(s.calls) + Ops(run)
    decreases |run|
  {
    if run != [] {
      var t := Apply(s, run[0]);
      CallsAreThoseInvoked(t, run[1..]);
      assert OpsOf(t.calls) == OpsOf(s.calls) + if run[0].Invoke? then [run[0].op] else [];
    }
  }

  predicate Answered(s: State, i: nat, answer: Answer) {
    i < |s.calls| && s.calls[i].phase == Done(answer)
  }

  /** Call i has given its caller a connection. */
  predicate Served(s: State, i: nat) {
    i < |s.calls| && HandedBy(s.calls[i]) != []
  }

  lemma StepAnswers(s: State, e: Event, i: nat)
    requires Enabled(s, e)
    ensures var t := Apply(s, e);
      && (Answered(t, i, Ended) <==> Answered(s, i, Ended) || e == End(i))
      && (Answered(t, i, Cancelled) <==> Answered(s, i, Cancelled) || e == Cancel(i))
      && (Answered(t, i, Failed) <==> Answered(s, i, Failed) || e == HandshakeFail(i) || e == StreamFail(i))
      && (Served(t, i) <==>
            Served(s, i) || e == StreamOk(i) || (e == HandshakeOk(i) && i < |s.calls| && s.calls[i].op == AcceptConn))
  {
  }

  /** Every answer has its event and every such event its answer: a call answers None exactly when
      it was told that the endpoint is closed, with an error exactly when its handshake or stream
      failed, with a connection exactly when what it asked for succeeded, and was cancelled exactly
      when it was dropped. */
  lemma {:induction false} AnswersComeFromEvents(s: State, run: seq<Event>, i: nat)
    requires Legal(s, run)
    ensures var t := Exec(s, run);
      && (Answered(t, i, Ended) <==> Answered(s, i, Ended) || End(i) in run)
      && (Answered(t, i, Cancelled) <==> Answered(s, i, Cancelled) || Cancel(i) in run)
      && (Answered(t, i, Failed) <==> Answered(s, i, Failed) || HandshakeFail(i) in run || StreamFail(i) in run)
      && (Served(t, i) <==>
            Served(s, i) || StreamOk(i) in run || (HandshakeOk(i) in run && i < |t.calls| && t.calls[i].op == AcceptConn))
    decreases |run|
  {
    if run != [] {
      var u := Apply(s, run[0]);
      StepAnswers(s, run[0], i);
      AnswersComeFromEvents(u, run[1..], i);
      assert forall e :: e in run <==> e == run[0] || e in run[1..];
      OpsStay(u, run[1..], i);
    }
  }

  lemma OpsStay(s: State, run: seq<Event>, i: nat)
    requires Legal(s, run)
    ensures |s.calls| <= |Exec(s, run).calls|
    ensures i < |s.calls| ==> Exec(s, run).calls[i].op == s.calls[i].op
  {
    CallsAreThoseInvoked(s, run);
    if i < |s.calls| {
      assert (OpsOf(s.calls) + Ops(run))[i] == OpsOf(s.calls)[i];
    }
  }

  // ------------------------------------------------------- one call, one connection

  /** Where call i, which at some time held connection c, can be, and where c is then. */
  predicate Fate(s: State, i: nat, c: nat) {
    && i < |s.calls|
    && match s.calls[i].phase
       case Waiting => false
       case Handshaking(d) => d == c
       case Accepting(d) => d == c && s.calls[i].op == AcceptNext
       case Done(answer) =>
         && (answer == Failed || answer == Cancelled || answer == if s.calls[i].op == AcceptNext then GotStream(c) else GotConn(c))
         && (answer.GotConn? || answer.GotStream? ==> c in s.delivered)
         && (answer == Failed || answer == Cancelled ==> c in s.dropped)
  }

  lemma StepFate(s: State, e: Event, i: nat, c: nat)
    requires Fate(s, i, c) && Enabled(s, e)
    ensures Fate(Apply(s, e), i, c)
    ensures s.calls[i].phase.Accepting? && !Apply(s, e).calls[i].phase.Done? ==> Apply(s, e).calls[i].phase.Accepting?
    ensures s.calls[i].phase.Handshaking? && !Apply(s, e).calls[i].phase.Done? ==>
      (Apply(s, e).calls[i].phase.Accepting? <==> e == HandshakeOk(i))
    ensures Apply(s, e).calls[i].op == s.calls[i].op && (e == StreamOk(i) ==> s.calls[i].op == AcceptNext)
  {
  }

  lemma {:induction false} RunFate(s: State, run: seq<Event>, i: nat, c: nat)
    requires Fate(s, i, c) && Legal(s, run)
    ensures Fate(Exec(s, run), i, c)
    ensures !Exec(s, run).calls[i].phase.Done? ==>
      (Exec(s, run).calls[i].phase.Accepting? <==> s.calls[i].phase.Accepting? || HandshakeOk(i) in run)
    ensures Exec(s, run).calls[i].op == s.calls[i].op && (StreamOk(i) in run ==> s.calls[i].op == AcceptNext)
    decreases |run|
  {
    if run != [] {
      StepFate(s, run[0], i, c);
      RunFate(Apply(s, run[0]), run[1..], i, c);
      assert forall e :: e in run <==> e == run[0] || e in run[1..];
      assert s.calls[i].phase.Done? ==> Apply(s, run[0]).calls[i].phase.Done?;
      DoneStays(Apply(s, run[0]), run[1..], i);
    }
  }

  lemma {:induction false} DoneStays(s: State, run: seq<Event>, i: nat)
    requires Legal(s, run) && i < |s.calls|
    ensures i < |Exec(s, run).calls|
    ensures s.calls[i].phase.Done? ==> Exec(s, run).calls[i] == s.calls[i]
    decreases |run|
  {
    if run != [] {
      DoneStays(Apply(s, run[0]), run[1..], i);
    }
  }

  /** Only `accept_next` calls wait for a stream. */
  lemma {:induction false} OnlyAcceptNextWaitsForStreams(s: State, run: seq<Event>)
    requires Legal(s, run) && forall c :: c in s.calls ==> (c.phase.Accepting? ==> c.op.AcceptNext?)
    ensures forall c :: c in Exec(s, run).calls ==> (c.phase.Accepting? ==> c.op.AcceptNext?)
    decreases |run|
  {
    if run != [] {
      OnlyAcceptNextWaitsForStreams(Apply(s, run[0]), run[1..]);
    }
  }

  /** A call that has taken connection c off the queue, over every later run. Exactly when its
      handshake - for `accept_next` its stream too - has succeeded, its caller has c, and c is
      delivered for good and never dropped. Exactly when one of them failed it answers with an
      error, exactly when it was dropped it is cancelled, and then c is dropped and never
      delivered. Until then it holds c, and on an open endpoint what it waits for can succeed. */
  lemma TakenConnectionIsDeliveredOrDropped(past: seq<Event>, i: nat, c: nat, run: seq<Event>)
    requires Legal(INIT, past) && i < |Exec(INIT, past).calls| && HeldBy(Exec(INIT, past).calls[i]) == [c]
    requires Legal(Exec(INIT, past), run)
    ensures var t := Exec(Exec(INIT, past), run);
      && i < |t.calls|
      && (t.calls[i].phase == Done(if t.calls[i].op == AcceptNext then GotStream(c) else GotConn(c)) <==>
            (if t.calls[i].op == AcceptNext then StreamOk(i) in run else HandshakeOk(i) in run))
      && (t.calls[i].phase == Done(Failed) <==> HandshakeFail(i) in run || StreamFail(i) in run)
      && (t.calls[i].phase == Done(Cancelled) <==> Cancel(i) in run)
      && (HandedBy(t.calls[i]) == [c] ==> c in t.delivered && c !in t.dropped)
      && (t.calls[i].phase == Done(Failed) || t.calls[i].phase == Done(Cancelled) ==> c in t.dropped && c !in t.delivered)
      && (t.calls[i].phase.Done? ==> HandedBy(t.calls[i]) == [c] || t.calls[i].phase.answer == Failed || t.calls[i].phase.answer == Cancelled)
      && (!t.calls[i].phase.Done? ==> HeldBy(t.calls[i]) == [c] && c !in t.delivered && c !in t.dropped)
      && (!t.calls[i].phase.Done? && !t.closed ==> Enabled(t, StreamOk(i)) || Enabled(t, HandshakeOk(i)))
      && (!t.calls[i].phase.Done? && !t.closed && HandshakeOk(i) in run ==> Enabled(t, StreamOk(i)))
  {
    var s := Exec(INIT, past);
    var t := Exec(s, run);
    OnlyAcceptNextWaitsForStreams(INIT, past);
    assert s.calls[i] in s.calls;
    RunFate(s, run, i, c);
    AnswersComeFromEvents(s, run, i);
    OneOfTheTwo(past, run, i, c);
  }

  /** Connections are in one place only. */
  lemma OneOfTheTwo(past: seq<Event>, run: seq<Event>, i: nat, c: nat)
    requires Legal(INIT, past) && Legal(Exec(INIT, past), run)
    ensures var t := Exec(Exec(INIT, past), run);
      && !(c in t.delivered && c in t.dropped)
      && (i < |t.calls| && HeldBy(t.calls[i]) == [c] ==> c !in t.delivered && c !in t.dropped)
  {
    var s := Exec(INIT, past);
    var t := Exec(s, run);
    RunConserves(INIT, past, c);
    RunConserves(s, run, c);
    CountMember(t.delivered, c);
    CountMember(t.dropped, c);
    if i < |t.calls| && HeldBy(t.calls[i]) == [c] {
      SumPair((j: nat) => HeldAt(t.calls, j, c), |t.calls|, i, i);
      CountMember(HeldBy(t.calls[i]), c);
    }
  }

  /** And a call that waits on an open endpoint with a connection queued can be served: it takes
      the oldest one, and its caller can be given exactly that. */
  lemma WaitingCallCanBeServed(past: seq<Event>, i: nat) returns (run: seq<Event>)
    requires Legal(INIT, past)
    requires var s := Exec(INIT, past); i < |s.calls| && s.calls[i].phase == Waiting && !s.closed && s.queue != []
    ensures var s := Exec(INIT, past); var c := s.queue[0];
      && run == (if s.calls[i].op == AcceptNext then [Pop(i), HandshakeOk(i)] + [StreamOk(i)] else [Pop(i), HandshakeOk(i)])
      && Legal(s, run) && |Exec(s, run).calls| == |s.calls|
      && Exec(s, run).calls[i] == s.calls[i].(phase := Done(if s.calls[i].op == AcceptNext then GotStream(c) else GotConn(c)))
      && Exec(s, run).delivered == s.delivered + [c] && Exec(s, run).queue == s.queue[1..]
  {
    var s := Exec(INIT, past);
    Two(s, Pop(i), HandshakeOk(i));
    run := [Pop(i), HandshakeOk(i)];
    if s.calls[i].op == AcceptNext {
      LegalAppend(s, run, [StreamOk(i)]);
      run := run + [StreamOk(i)];
    }
  }
}
