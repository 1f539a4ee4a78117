/** What each caller of a receive half is told, as a function of the stream at the moment it is told;
    and that it is told nothing else, ever. */
module RecvAnswers {
  import opened Prelude
  import opened FifoLock
  import opened RecvHalf

  /** What one `read` into a buffer of max bytes has to say: nothing is needed to fill no buffer; a
      reset, stopped or spoiled stream is an error; otherwise buffered bytes are handed over, at
      least one of them; with none left it is the end, or the loss. */
  predicate ReadSays(h: Half, max: nat, o: Outcome) {
    if max == 0 then o == Ok(Some([]))
    else if !Intact(h) then o == Failed
    else if h.taken < |h.feed| then
      o.Ok? && o.data.Some? && 1 <= |o.data.value| <= max && h.taken + |o.data.value| <= |h.feed|
      && o.data.value == h.feed[h.taken..h.taken + |o.data.value|]
    else if h.fin then o == Ok(None)
    else h.lost && o == Failed
  }

  /** Event e, in state s, ends call i with answer o. A call is cancelled by its own cancellation
      and by nothing else; otherwise `recv` says what one read says, `read_exact` is Ok with its n
      bytes or fails short of them where no more will come, `read_to_end` is Ok with what it took at
      the end of an intact stream and fails otherwise, `stop` is Ok when the library takes it, and
      a bad stop code fails at once. */
  predicate Ends(s: State, e: Event, i: nat, o: Outcome) {
    if i < |s.calls| then
      var c := s.calls[i];
      && !c.phase.Done?
      && (o == Cancelled <==> e == Cancel(i))
      && (o != Cancelled ==>
            match c.op
            case Recv(max) => ReadSays(s.half, max, o)
            case ReadExact(n) =>
              if |c.got| == n then o == Ok(Some(c.got)) else o == Failed && (!Intact(s.half) || AtEnd(s.half) || Dead(s.half))
            case ReadToEnd(max) => o == if Intact(s.half) && AtEnd(s.half) then Ok(Some(c.got)) else Failed
            case Stop(_) => e.DoStop? && o == if e.ok then Ok(None) else Failed
            case Query => o == Ok(None))
    else
      i == |s.calls| && e.Invoke? && e.op.Stop? && e.op.code >= VARINT_LIMIT && o == Failed
  }

  predicate Over(s: State, i: nat) {
    i < |s.calls| && s.calls[i].phase.Done?
  }

  /** `recv` ends with the bytes it is handed. */
  lemma TakeEnds(s: State, k: nat, i: nat)
    requires Inv(s) && Enabled(s, Take(k)) && !Over(s, i) && Over(Apply(s, Take(k)), i)
    ensures Ends(s, Take(k), i, Apply(s, Take(k)).calls[i].phase.outcome)
  {
    LockFacts(s);
    assert CallInv(s, i);
    var chunk := s.half.feed[s.half.taken..s.half.taken + k];
    assert s.calls[i].op.Recv? && s.calls[i].got == [] && [] + chunk == chunk;
    assert Apply(s, Take(k)).calls[i].phase == Done(Ok(Some(chunk)));
  }

  lemma StepEnds(s: State, e: Event, i: nat)
    requires Inv(s) && Enabled(s, e) && !Over(s, i) && Over(Apply(s, e), i)
    ensures Ends(s, e, i, Apply(s, e).calls[i].phase.outcome)
  {
    LockFacts(s);
    if e.Take? {
      TakeEnds(s, e.k, i);
    } else if i < |s.calls| {
      assert CallInv(s, i);
    }
  }

  lemma StepKeepsAnswer(s: State, e: Event, i: nat)
    requires Inv(s) && Enabled(s, e) && Over(s, i)
    ensures Over(Apply(s, e), i) && Apply(s, e).calls[i] == s.calls[i]
  {
    LockFacts(s);
    assert CallInv(s, i);
  }

  /** An answer once given is never changed. */
  lemma {:induction false} AnswersAreFinal(s: State, run: seq<Event>, i: nat)
    requires Inv(s) && Legal(s, run) && Over(s, i)
    ensures Over(Exec(s, run), i) && Exec(s, run).calls[i] == s.calls[i]
    decreases |run|
  {
    if run != [] {
      StepKeepsAnswer(s, run[0], i);
      StepKeepsInv(s, run[0]);
      AnswersAreFinal(Apply(s, run[0]), run[1..], i);
    }
  }

  /** Every answer has its moment: a call that is over was ended by one event of the run, and told
      what the stream called for where that event happened. */
  lemma {:induction false} EveryAnswerHasItsMoment(s: State, run: seq<Event>, i: nat) returns (k: nat)
    requires Inv(s) && Legal(s, run) && !Over(s, i) && Over(Exec(s, run), i)
    ensures k < |run| && Legal(s, run[..k]) && Enabled(Exec(s, run[..k]), run[k])
    ensures Ends(Exec(s, run[..k]), run[k], i, Exec(s, run).calls[i].phase.outcome)
    decreases |run|
  {
    var t := Apply(s, run[0]);
    StepKeepsInv(s, run[0]);
    if Over(t, i) {
      k := 0;
      StepEnds(s, run[0], i);
      AnswersAreFinal(t, run[1..], i);
      assert run[..0] == [];
    } else {
      var j := EveryAnswerHasItsMoment(t, run[1..], i);
      k := j + 1;
      assert run[..k][1..] == run[1..][..j] && run[..k][0] == run[0];
    }
  }

  lemma StepCancels(s: State, e: Event, i: nat)
    requires Inv(s) && Enabled(s, e)
    ensures (Over(Apply(s, e), i) && Apply(s, e).calls[i].phase == Done(Cancelled))
      <==> (Over(s, i) && s.calls[i].phase == Done(Cancelled)) || e == Cancel(i)
  {
    if Over(s, i) {
      StepKeepsAnswer(s, e, i);
    } else if Over(Apply(s, e), i) {
      StepEnds(s, e, i);
    }
  }

  /** A call is cancelled exactly when its caller dropped it. */
  lemma {:induction false} CancelledExactlyWhenDropped(s: State, run: seq<Event>, i: nat)
    requires Inv(s) && Legal(s, run)
    ensures (Over(Exec(s, run), i) && Exec(s, run).calls[i].phase == Done(Cancelled))
      <==> (Over(s, i) && s.calls[i].phase == Done(Cancelled)) || Cancel(i) in run
    decreases |run|
  {
    if run != [] {
      StepCancels(s, run[0], i);
      StepKeepsInv(s, run[0]);
      CancelledExactlyWhenDropped(Apply(s, run[0]), run[1..], i);
      assert Cancel(i) in run <==> run[0] == Cancel(i) || Cancel(i) in run[1..];
    }
  }

  /** Every read that is not over can be dropped, and that frees its place. */
  lemma UnfinishedReadsCanBeDropped(run: seq<Event>, i: nat)
    requires Legal(INIT, run) && i < |Exec(INIT, run).calls|
    ensures var s := Exec(INIT, run);
      !s.calls[i].phase.Done? && (s.calls[i].op.Recv? || s.calls[i].op.ReadExact? || s.calls[i].op.ReadToEnd?) ==>
        && Enabled(s, Cancel(i))
        && Apply(s, Cancel(i)).half.taken == s.half.taken && Apply(s, Cancel(i)).half.feed == s.half.feed
        && Apply(s, Cancel(i)).lock.holder != Some(i) && i !in Apply(s, Cancel(i)).lock.queue
  {
    RunKeepsInv(INIT, run);
    var s := Exec(INIT, run);
    assert CallInv(s, i);
    if Enabled(s, Cancel(i)) {
      StepKeepsInv(s, Cancel(i));
      assert CallInv(Apply(s, Cancel(i)), i);
    }
  }

  /** Calling in, waiting, being granted the lock, returning, and failing or being dropped other than
      in `read_to_end` leave the half exactly as it is: only taking bytes, stopping and an unreturned
      `read_to_end` are a caller's ways to change it, and the environment's events each change the
      one thing they report. */
  lemma OnlyTheseChangeTheHalf(s: State, e: Event)
    requires Inv(s) && Enabled(s, e)
    ensures var h := s.half; var k := Apply(s, e).half;
      match e
      case Take(n) => k == h.(taken := h.taken + n)
      case DoStop(ok) => k == h.(stop := k.stop) && (!ok ==> k == h)
      case Fail => k == h.(spoiled := k.spoiled)
      case Cancel(_) => k == h.(spoiled := k.spoiled)
      case Arrive(bytes) => k == h.(feed := h.feed + bytes)
      case FinArrive => k == h.(fin := true)
      case RstArrive => k == h.(rst := true)
      case Lose => k == h.(lost := true)
      case _ => k == h
  {
  }

  // ------------------------------------------------------------ spoiled, reset and stopped halves

  /** A `read_to_end` that had the lock and did not return has left the half spoiled. */
  predicate Spoiler(s: State, i: nat) {
    Over(s, i) && s.calls[i].op.ReadToEnd? && i in s.lock.granted && !s.calls[i].phase.outcome.Ok? ==> s.half.spoiled.Some?
  }

  lemma StepSpoils(s: State, e: Event, i: nat)
    requires Inv(s) && Enabled(s, e) && Spoiler(s, i)
    ensures Spoiler(Apply(s, e), i)
  {
    LockFacts(s);
    if i < |s.calls| {
      assert CallInv(s, i);
      if Over(s, i) {
        StepKeepsAnswer(s, e, i);
      }
    }
  }

  lemma {:induction false} RunSpoils(s: State, run: seq<Event>, i: nat)
    requires Inv(s) && Legal(s, run) && Spoiler(s, i)
    ensures Spoiler(Exec(s, run), i)
    decreases |run|
  {
    if run != [] {
      StepSpoils(s, run[0], i);
      StepKeepsInv(s, run[0]);
      RunSpoils(Apply(s, run[0]), run[1..], i);
    }
  }

  /** A `read_to_end` that got the lock and then failed or was dropped, however little it took, ends
      the usefulness of the half: over every later run no call is handed another byte. */
  lemma UnreturnedReadToEndSpoilsTheHalf(run: seq<Event>, i: nat, later: seq<Event>)
    requires Legal(INIT, run) && Over(Exec(INIT, run), i) && Legal(Exec(INIT, run), later)
    requires var s := Exec(INIT, run); s.calls[i].op.ReadToEnd? && i in s.lock.granted && !s.calls[i].phase.outcome.Ok?
    ensures Exec(INIT, run).half.spoiled.Some?
    ensures Exec(Exec(INIT, run), later).half.taken == Exec(INIT, run).half.taken
  {
    RunKeepsInv(INIT, run);
    RunSpoils(INIT, run, i);
    BrokenHalfHandsOutNothing(Exec(INIT, run), later, i);
  }

  lemma BrokenStep(s: State, e: Event)
    requires Enabled(s, e) && !Intact(s.half)
    ensures !Intact(Apply(s, e).half) && Apply(s, e).half.taken == s.half.taken
  {
  }

  /** A reset, a stop or a spoiled half is for good: over every run no call is handed another byte,
      and every read with something left to do that ends is cancelled or fails. */
  lemma {:induction false} BrokenHalfHandsOutNothing(s: State, run: seq<Event>, i: nat)
    requires Inv(s) && Legal(s, run) && !Intact(s.half)
    ensures !Intact(Exec(s, run).half) && Exec(s, run).half.taken == s.half.taken
    ensures !Over(s, i) && Over(Exec(s, run), i) ==>
      var c := Exec(s, run).calls[i];
      (c.op.Recv? && c.op.max > 0) || (c.op.ReadExact? && |c.got| < c.op.n) || c.op.ReadToEnd? ==>
        c.phase == Done(Failed) || c.phase == Done(Cancelled)
    decreases |run|
  {
    if run != [] {
      var t := Apply(s, run[0]);
      BrokenStep(s, run[0]);
      StepKeepsInv(s, run[0]);
      if !Over(s, i) && Over(t, i) {
        StepEnds(s, run[0], i);
        BrokenEnds(s, run[0], i);
        AnswersAreFinal(t, run[1..], i);
      }
      BrokenHalfHandsOutNothing(t, run[1..], i);
    }
  }

  lemma BrokenEnds(s: State, e: Event, i: nat)
    requires Inv(s) && Enabled(s, e) && !Intact(s.half) && !Over(s, i) && Over(Apply(s, e), i)
    ensures var c := Apply(s, e).calls[i];
      (c.op.Recv? && c.op.max > 0) || (c.op.ReadExact? && |c.got| < c.op.n) || c.op.ReadToEnd? ==>
        c.phase == Done(Failed) || c.phase == Done(Cancelled)
  {
    LockFacts(s);
    StepEnds(s, e, i);
  }
}
