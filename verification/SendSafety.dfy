/** What every interleaving of callers keeps on a send half. */
module SendSafety {
  import opened Prelude
  import opened FifoLock
  import opened SendHalf

  /** A `send_bytes` call that has put some but not all of its data on the stream and is not
      over yet. */
  predicate InFlight(s: State, i: nat) {
    i < |s.calls| && s.calls[i].op.SendBytes? && 0 < s.calls[i].sent < |s.calls[i].op.data| && !s.calls[i].phase.Done?
  }

  /** In every reachable state the stream holds the concatenation, in lock order, of one part
      per call: the whole message when the call returned Ok, a prefix of it otherwise. Lock
      order is call order, only the holder can be part-way, and a call that is over holds
      neither the lock nor a place in the queue. */
  lemma WrittenIsPartsInLockOrder(run: seq<Event>)
    requires Legal(INIT, run)
    ensures var s := Exec(INIT, run);
      && s.half.written == Concatenated(s.calls, s.lock.granted)
      && Ascending(s.lock.granted)
      && (forall i :: 0 <= i < |s.calls| && s.calls[i].op.SendBytes? ==> Part(s.calls, i) <= s.calls[i].op.data)
      && (forall i :: 0 <= i < |s.calls| && s.calls[i].op.SendBytes? && s.calls[i].phase == Done(Ok(None)) ==>
            i in s.lock.granted && Part(s.calls, i) == s.calls[i].op.data)
      && (forall i :: 0 <= i < |s.calls| && i !in s.lock.granted ==> Part(s.calls, i) == [])
      && (forall i: nat :: InFlight(s, i) ==> s.lock.holder == Some(i))
      && (forall i :: 0 <= i < |s.calls| && s.calls[i].phase.Done? ==>
            s.lock.holder != Some(i) && i !in s.lock.queue)
  {
    var s := Exec(INIT, run);
    RunKeepsInv(INIT, run);
    LockFacts(s);
    forall i: nat | i < |s.calls|
      ensures var c := s.calls[i];
        && (c.op.SendBytes? && c.phase == Done(Ok(None)) ==> i in s.lock.granted && Part(s.calls, i) == c.op.data)
        && (i !in s.lock.granted ==> Part(s.calls, i) == [])
        && (InFlight(s, i) ==> s.lock.holder == Some(i))
        && (c.phase.Done? ==> s.lock.holder != Some(i) && i !in s.lock.queue)
    {
      assert CallInv(s, i);
    }
  }

  /** No other caller's byte lands inside a message whose call returned Ok: the message sits in
      the stream in one piece, right after the parts of the calls that were granted before it. */
  lemma OkMessageIsContiguous(run: seq<Event>, i: nat) returns (p: nat)
    requires Legal(INIT, run) && i < |Exec(INIT, run).calls|
    requires var c := Exec(INIT, run).calls[i]; c.op.SendBytes? && c.phase == Done(Ok(None))
    ensures var s := Exec(INIT, run);
      && p < |s.lock.granted| && s.lock.granted[p] == i
      && (forall q :: 0 <= q < p ==> s.lock.granted[q] < i)
      && Concatenated(s.calls, s.lock.granted[..p]) + s.calls[i].op.data <= s.half.written
  {
    var s := Exec(INIT, run);
    WrittenIsPartsInLockOrder(run);
    p :| 0 <= p < |s.lock.granted| && s.lock.granted[p] == i;
    JoinedSplit((j: nat) => Part(s.calls, j), s.lock.granted, p);
  }

  /** Whichever event ends the writable life of the stream, nobody is part-way through a
      `send_bytes` when it happens: `finish` and `reset` land at call boundaries. */
  lemma CloseLandsAtCallBoundary(run: seq<Event>, e: Event)
    requires Legal(INIT, run) && Enabled(Exec(INIT, run), e)
    requires Open(Exec(INIT, run).half) && !Open(Apply(Exec(INIT, run), e).half)
    ensures e.DoFinish? || e.DoReset?
    ensures forall i: nat :: !InFlight(Exec(INIT, run), i)
    ensures Apply(Exec(INIT, run), e).half.written == Exec(INIT, run).half.written
  {
    WrittenIsPartsInLockOrder(run);
  }

  /** From then on no run adds a byte, and the stream never becomes writable again. */
  lemma {:induction false} ClosedStreamNeverGrows(s: State, run: seq<Event>)
    requires !Open(s.half) && Legal(s, run)
    ensures !Open(Exec(s, run).half) && Exec(s, run).half.written == s.half.written
    decreases |run|
  {
    if run != [] {
      ClosedStreamNeverGrows(Apply(s, run[0]), run[1..]);
    }
  }

  /** Bytes once written are never taken back. */
  lemma {:induction false} WrittenOnlyGrows(s: State, run: seq<Event>)
    requires Legal(s, run)
    ensures s.half.written <= Exec(s, run).half.written
    decreases |run|
  {
    if run != [] {
      WrittenOnlyGrows(Apply(s, run[0]), run[1..]);
    }
  }

  /** All the credit a run grants. */
  function Granted(run: seq<Event>): nat {
    if run == [] then 0 else (if run[0].Credit? then run[0].n else 0) + Granted(run[1..])
  }

  /** Bytes on the stream are paid for: over any run, what is written and the credit left grow
      together by exactly what the environment granted. From a fresh half, then, no run writes
      more than it was granted. */
  lemma {:induction false} CreditIsConserved(s: State, run: seq<Event>)
    requires Legal(s, run)
    ensures |Exec(s, run).half.written| + Exec(s, run).half.credit == |s.half.written| + s.half.credit + Granted(run)
    decreases |run|
  {
    if run != [] {
      CreditIsConserved(Apply(s, run[0]), run[1..]);
    }
  }

  /** Every answer a call has been given is, and stays, true of the stream: a failed `send_bytes`
      or `finish` means the stream is closed, stopped or lost; `finish` Ok means it is closed or
      the peer had stopped it; `reset` Ok means it is reset; `stopped` answers with the peer's
      own code, or None once everything is acknowledged. */
  lemma AnswersStayTrue(run: seq<Event>, later: seq<Event>, i: nat)
    requires Legal(INIT, run) && i < |Exec(INIT, run).calls| && Exec(INIT, run).calls[i].phase.Done?
    requires Legal(Exec(INIT, run), later)
    ensures ResultInv(Exec(INIT, run).half, Exec(INIT, run).calls[i])
    ensures ResultInv(Exec(Exec(INIT, run), later).half, Exec(INIT, run).calls[i])
    ensures Later(Exec(INIT, run).half, Exec(Exec(INIT, run), later).half)
  {
    RunKeepsInv(INIT, run);
    assert CallInv(Exec(INIT, run), i);
    StreamMovesForward(Exec(INIT, run), later);
  }

  /** The sending state only moves along the transitions of section 3.1 of RFC 9000, and what
      the peer or the network reported is never forgotten. */
  lemma {:induction false} StreamMovesForward(s: State, run: seq<Event>)
    requires Legal(s, run)
    ensures Later(s.half, Exec(s, run).half)
    decreases |run|
  {
    if run != [] {
      StreamMovesForward(Apply(s, run[0]), run[1..]);
    }
  }
}
