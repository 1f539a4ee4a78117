/** What every interleaving of readers keeps on a receive half. */
module RecvSafety {
  import opened Prelude
  import opened FifoLock
  import opened RecvHalf

  /** In every reachable state what the calls took, in lock order, is exactly the part of the
      peer's bytes consumed so far: nothing duplicated, nothing reordered, nothing skipped. A
      read that returned data returned precisely what it took; a `recv` that did not return
      took nothing. */
  lemma ReadsAreAPrefixInLockOrder(run: seq<Event>)
    requires Legal(INIT, run)
    ensures var s := Exec(INIT, run);
      && Ascending(s.lock.granted)
      && Consumed(s.calls, s.lock.granted) <= s.half.feed
      && |Consumed(s.calls, s.lock.granted)| == s.half.taken
      && (forall c :: c in s.calls && Reader(c.op) && c.phase.Done? && c.phase.outcome.Ok? && c.phase.outcome.data.Some? ==>
            c.phase.outcome.data.value == c.got)
      && (forall c :: c in s.calls && c.op.Recv? && c.phase != Done(Ok(Some(c.got))) ==> c.got == [])
      && (forall c :: c in s.calls && c.op.ReadExact? && c.phase.Done? && c.phase.outcome.Ok? ==> |c.got| == c.op.n)
      && (forall i :: 0 <= i < |s.calls| && i !in s.lock.granted ==> s.calls[i].got == [])
  {
    var s := Exec(INIT, run);
    RunKeepsInv(INIT, run);
    forall i | 0 <= i < |s.calls|
      ensures CallInv(s, i)
      ensures i !in s.lock.granted ==> s.calls[i].got == []
    {
      assert CallInv(s, i);
    }
  }

  /** `recv(max)` with max > 0 answers None only at the end of a finished stream whose every
      byte has been handed out, and from then on nothing more is ever consumed. */
  lemma NoneMeansFullyConsumed(run: seq<Event>, later: seq<Event>, i: nat)
    requires Legal(INIT, run) && i < |Exec(INIT, run).calls|
    requires var c := Exec(INIT, run).calls[i]; c.op.Recv? && c.phase == Done(Ok(None))
    requires Legal(Exec(INIT, run), later)
    ensures var s := Exec(INIT, run);
      && s.calls[i].op.max > 0
      && s.half.fin && Consumed(s.calls, s.lock.granted) == s.half.feed
      && Exec(s, later).half.feed == s.half.feed && Exec(s, later).half.taken == s.half.taken
  {
    var s := Exec(INIT, run);
    RunKeepsInv(INIT, run);
    assert CallInv(s, i);
    assert s.half.feed[..s.half.taken] == s.half.feed;
    EndIsFinal(s, later);
  }

  lemma {:induction false} EndIsFinal(s: State, run: seq<Event>)
    requires AtEnd(s.half) && Legal(s, run)
    ensures AtEnd(Exec(s, run).half)
    ensures Exec(s, run).half.feed == s.half.feed && Exec(s, run).half.taken == s.half.taken
    decreases |run|
  {
    if run != [] {
      EndIsFinal(Apply(s, run[0]), run[1..]);
    }
  }

  /** The bytes a call that returned them got are one contiguous piece of the peer's stream,
      starting where the calls granted before it left off. */
  lemma ReturnedBytesAreContiguous(run: seq<Event>, i: nat) returns (p: nat)
    requires Legal(INIT, run) && i < |Exec(INIT, run).calls|
    requires var c := Exec(INIT, run).calls[i]; Reader(c.op) && c.phase.Done? && c.phase.outcome.Ok?
    ensures var s := Exec(INIT, run);
      && p < |s.lock.granted| && s.lock.granted[p] == i
      && Consumed(s.calls, s.lock.granted[..p]) + s.calls[i].got <= s.half.feed
  {
    var s := Exec(INIT, run);
    RunKeepsInv(INIT, run);
    assert CallInv(s, i);
    p :| 0 <= p < |s.lock.granted| && s.lock.granted[p] == i;
    JoinedSplit((j: nat) => Got(s.calls, j), s.lock.granted, p);
  }

  /** The calls of `order`, an increasing list, that come before call i. */
  function Earlier(order: seq<nat>, i: nat): seq<nat> {
    if order == [] || Last(order) < i then order else Earlier(Front(order), i)
  }

  /** How many bytes the calls granted before call i have taken. */
  function TakenBefore(s: State, i: nat): nat {
    |Consumed(s.calls, Earlier(s.lock.granted, i))|
  }

  /** More bytes have arrived, past what earlier calls took, than call i was willing to read. */
  predicate OverLimit(s: State, i: nat) {
    i < |s.calls| && s.calls[i].op.ReadToEnd? && |s.half.feed| > TakenBefore(s, i) + s.calls[i].op.max
  }

  /** A failed `read_to_end` held the lock, and met trouble it did not make itself or too many
      bytes. */
  ghost predicate Explained(s: State, i: nat) {
    i < |s.calls| && s.calls[i].op.ReadToEnd? && s.calls[i].phase == Done(Failed) ==>
      i in s.lock.granted && (Troubled(s.half, i) || OverLimit(s, i))
  }

  lemma {:induction false} EarlierMembers(order: seq<nat>, i: nat)
    requires Ascending(order)
    ensures Earlier(order, i) <= order
    ensures forall j :: j in Earlier(order, i) <==> j in order && j < i
  {
    if order != [] && Last(order) >= i {
      EarlierMembers(Front(order), i);
      assert forall j :: j in order <==> j in Front(order) || j == Last(order);
    } else {
      assert forall k :: 0 <= k < |order| ==> order[k] <= Last(order);
    }
  }

  lemma EarlierThanHolder(s: State, i: nat)
    requires Inv(s) && s.lock.holder == Some(i)
    ensures Earlier(s.lock.granted, i) == Front(s.lock.granted)
    ensures i < |s.calls| && TakenBefore(s, i) + |s.calls[i].got| == s.half.taken
  {
    LockFacts(s);
    var order := s.lock.granted;
    if Front(order) != [] {
      assert order[|order| - 2] < order[|order| - 1];
      assert Last(Front(order)) < i;
    }
    assert Earlier(order, i) == Earlier(Front(order), i) == Front(order);
  }

  lemma OnlyHolderTakes(s: State, e: Event, j: nat)
    requires Inv(s) && Enabled(s, e) && s.lock.holder != Some(j) && j < |s.calls|
    ensures Got(Apply(s, e).calls, j) == Got(s.calls, j)
  {
  }

  lemma GrantedGrows(s: State, e: Event)
    requires Inv(s) && Enabled(s, e)
    ensures Apply(s, e).lock.granted == s.lock.granted + if e.Grant? then [s.lock.queue[0]] else []
  {
  }

  lemma EarlierStays(s: State, e: Event, i: nat)
    requires Inv(s) && Enabled(s, e) && i in s.lock.granted
    ensures Earlier(Apply(s, e).lock.granted, i) == Earlier(s.lock.granted, i)
  {
    GrantedGrows(s, e);
    if e.Grant? {
      assert s.lock.queue[0] in s.lock.queue;
      assert Front(s.lock.granted + [s.lock.queue[0]]) == s.lock.granted;
    }
  }

  /** What was taken before a call that once had the lock never changes. */
  lemma TakenBeforeStays(s: State, e: Event, i: nat)
    requires Inv(s) && Enabled(s, e) && i in s.lock.granted
    ensures TakenBefore(Apply(s, e), i) == TakenBefore(s, i)
  {
    var order := Earlier(s.lock.granted, i);
    EarlierMembers(s.lock.granted, i);
    EarlierStays(s, e, i);
    forall j | j in order
      ensures Got(Apply(s, e).calls, j) == Got(s.calls, j)
    {
      EarlierIsNotHolder(s, i, j);
      OnlyHolderTakes(s, e, j);
    }
    ConsumedFrame(s.calls, Apply(s, e).calls, order);
  }

  lemma EarlierIsNotHolder(s: State, i: nat, j: nat)
    requires Inv(s) && i in s.lock.granted && j < i
    ensures s.lock.holder != Some(j)
  {
    var q :| 0 <= q < |s.lock.granted| && s.lock.granted[q] == i;
    assert q < |s.lock.granted| - 1 ==> i < Last(s.lock.granted);
  }

  /** A failing `read_to_end` meets trouble, or has more bytes before it than it will take. */
  lemma FailExplains(s: State, i: nat)
    requires Inv(s) && Enabled(s, Fail) && s.lock.holder == Some(i) && s.calls[i].op.ReadToEnd?
    ensures Explained(Apply(s, Fail), i)
  {
    LockFacts(s);
    EarlierThanHolder(s, i);
    TakenBeforeStays(s, Fail, i);
    if s.half.spoiled.Some? {
      SpoiledEarlier(s, i);
    }
  }

  /** The reasons for a failure never go away. */
  lemma ExplainedStays(s: State, e: Event, i: nat)
    requires Inv(s) && Enabled(s, e) && Explained(s, i) && i < |s.calls| && s.calls[i].op.ReadToEnd? && s.calls[i].phase == Done(Failed)
    ensures Explained(Apply(s, e), i)
  {
    TakenBeforeStays(s, e, i);
    GrantedGrows(s, e);
    LockFacts(s);
  }

  lemma StepExplains(s: State, e: Event, i: nat)
    requires Inv(s) && Enabled(s, e) && Explained(s, i)
    ensures Explained(Apply(s, e), i)
  {
    LockFacts(s);
    if i < |s.calls| && s.calls[i].op.ReadToEnd? {
      if s.calls[i].phase == Done(Failed) {
        ExplainedStays(s, e, i);
      } else if e.Fail? && s.lock.holder == Some(i) {
        FailExplains(s, i);
      }
    }
  }

  lemma {:induction false} RunExplains(s: State, run: seq<Event>, i: nat)
    requires Inv(s) && Legal(s, run) && Explained(s, i)
    ensures Explained(Exec(s, run), i)
    decreases |run|
  {
    if run != [] {
      StepExplains(s, run[0], i);
      StepKeepsInv(s, run[0]);
      RunExplains(Apply(s, run[0]), run[1..], i);
    }
  }

  /** Every answer a read has been given is true of the stream, errors included: a `recv` fails
      only on a stream that was reset, stopped, lost before its end or spoiled by an earlier call;
      a `read_exact` also at an end that comes too soon; a `read_to_end` also when more bytes
      arrive, beyond what the calls before it took, than its limit. Whoever spoiled the half is a
      `read_to_end` that failed or was cancelled. */
  lemma AnswersAreTrue(run: seq<Event>, i: nat)
    requires Legal(INIT, run) && i < |Exec(INIT, run).calls|
    ensures var s := Exec(INIT, run);
      && ResultInv(s.half, s.calls[i], i)
      && SpoilInv(s)
      && (s.calls[i].op.ReadToEnd? && s.calls[i].phase == Done(Failed) ==> Troubled(s.half, i) || OverLimit(s, i))
  {
    RunKeepsInv(INIT, run);
    RunExplains(INIT, run, i);
    assert CallInv(Exec(INIT, run), i);
  }

  // ------------------------------------------------------- what callers lose

  /** What a call gave back to its caller. */
  function Returned(calls: seq<Call>, i: nat): Bytes {
    if i < |calls| && calls[i].phase.Done? && calls[i].phase.outcome.Ok? && calls[i].phase.outcome.data.Some?
    then calls[i].phase.outcome.data.value
    else []
  }

  lemma {:induction false} JoinedLoss(kept: nat -> Bytes, took: nat -> Bytes, order: seq<nat>)
    requires forall i :: i in order ==> kept(i) == took(i) || kept(i) == []
    ensures |Joined(kept, order)| <= |Joined(took, order)|
    ensures |Joined(kept, order)| == |Joined(took, order)| <==> forall i :: i in order ==> kept(i) == took(i)
    ensures (forall i :: i in order ==> kept(i) == took(i)) ==> Joined(kept, order) == Joined(took, order)
  {
    if order != [] {
      assert forall i :: i in Front(order) ==> i in order;
      assert forall i :: i in order ==> i in Front(order) || i == Last(order);
      assert Last(order) in order;
      JoinedLoss(kept, took, Front(order));
    }
  }

  /** Callers together hold every byte consumed exactly when no `read_exact` or `read_to_end`
      failed, was cancelled or is still under way with bytes already taken. A cancelled or
      failed `recv` never costs anything. */
  lemma NothingLostExactlyWhen(run: seq<Event>)
    requires Legal(INIT, run)
    ensures var s := Exec(INIT, run);
      Joined((i: nat) => Returned(s.calls, i), s.lock.granted) == Consumed(s.calls, s.lock.granted)
      <==> forall c :: c in s.calls && (c.op.ReadExact? || c.op.ReadToEnd?) && !(c.phase.Done? && c.phase.outcome.Ok?) ==> c.got == []
  {
    var s := Exec(INIT, run);
    RunKeepsInv(INIT, run);
    var kept := (i: nat) => Returned(s.calls, i);
    var took := (i: nat) => Got(s.calls, i);
    forall i | 0 <= i < |s.calls|
      ensures kept(i) == took(i) || kept(i) == []
      ensures i !in s.lock.granted ==> s.calls[i].got == []
      ensures kept(i) != took(i) <==>
        && (s.calls[i].op.ReadExact? || s.calls[i].op.ReadToEnd?)
        && !(s.calls[i].phase.Done? && s.calls[i].phase.outcome.Ok?)
        && s.calls[i].got != []
    {
      assert CallInv(s, i);
    }
    JoinedLoss(kept, took, s.lock.granted);
    if forall i :: i in s.lock.granted ==> kept(i) == took(i) {
      forall c | c in s.calls && (c.op.ReadExact? || c.op.ReadToEnd?) && !(c.phase.Done? && c.phase.outcome.Ok?)
        ensures c.got == []
      {
        var i :| 0 <= i < |s.calls| && s.calls[i] == c;
        if i in s.lock.granted {
          assert kept(i) == took(i);
        }
      }
    }
  }

  lemma ReadOneOfTwo(s: State) returns (run: seq<Event>)
    requires s == INIT.(half := INIT.half.(feed := [7]))
    ensures Legal(s, run)
    ensures Exec(s, run) == State([Call(ReadExact(2), Holding, [7])], Lock(Some(0), [], [0]), s.half.(taken := 1))
  {
    var s2 := State([Call(ReadExact(2), Queued, [])], Lock(None, [0], []), s.half);
    var s3 := State([Call(ReadExact(2), Holding, [])], Lock(Some(0), [], [0]), s.half);
    assert Exec(s, [Invoke(ReadExact(2))]) == s2;
    assert Exec(s2, [Event.Grant]) == s3;
    assert s3.calls[0].got + s3.half.feed[0..1] == [7];
    LegalAppend(s2, [Event.Grant], [Take(1)]);
    LegalAppend(s, [Invoke(ReadExact(2))], [Event.Grant] + [Take(1)]);
    run := [Invoke(ReadExact(2))] + ([Event.Grant] + [Take(1)]);
  }

  /** A concrete loss: a `read_exact(2)` cancelled after one byte keeps that byte. */
  lemma CancelledReadExactLosesAByte() returns (run: seq<Event>)
    ensures Legal(INIT, run)
    ensures Exec(INIT, run).half.taken == 1 && Exec(INIT, run).calls == [Call(ReadExact(2), Done(Cancelled), [7])]
  {
    var s1 := INIT.(half := INIT.half.(feed := [7]));
    assert INIT.half.feed + [7] == [7] && Exec(INIT, [Arrive([7])]) == s1;
    var reading := ReadOneOfTwo(s1);
    LegalAppend(s1, reading, [Cancel(0)]);
    LegalAppend(INIT, [Arrive([7])], reading + [Cancel(0)]);
    run := [Arrive([7])] + (reading + [Cancel(0)]);
  }

  // ----------------------------------------------------------------- progress

  predicate Progress(e: Event) {
    e.Grant? || e.Take? || e.Return? || e.Fail? || e.DoStop? || e.DoQuery?
  }

  /** The one way a receive half waits: the holder is a reader that still wants bytes, none are
      buffered, and neither an end, an error nor a loss has been reported. */
  predicate Starving(s: State) {
    && Intact(s.half) && s.half.taken == |s.half.feed| && !s.half.fin && !s.half.lost
    && HolderIs(s, (c: Call) => Reader(c.op) && (Room(c) > 0 || c.op.ReadToEnd?))
  }

  /** The step the current holder, or else the lock, can take next. */
  function NextStep(s: State): Event
    requires s.lock.holder.Some? ==> s.lock.holder.value < |s.calls|
  {
    if s.lock.holder.None? then Event.Grant
    else
      var c := s.calls[s.lock.holder.value];
      if c.op.Stop? then DoStop(s.half.stop.None?)
      else if c.op.Query? then DoQuery
      else if CanReturn(s.half, c) then Return
      else if CanFail(s.half, c) then Fail
      else Take(1)
  }

  predicate Busy(s: State) {
    exists i :: 0 <= i < |s.calls| && !s.calls[i].phase.Done?
  }

  lemma NextStepEnabled(s: State)
    requires Inv(s) && Busy(s) && !Starving(s)
    ensures s.lock.holder.Some? ==> s.lock.holder.value < |s.calls|
    ensures Progress(NextStep(s)) && Enabled(s, NextStep(s))
  {
    LockFacts(s);
    var i :| 0 <= i < |s.calls| && !s.calls[i].phase.Done?;
    assert CallInv(s, i);
  }

  /** While any call is unfinished, either some call can move or the holder is starved of bytes;
      never both, and never a cycle of callers waiting for each other. */
  lemma BlockedExactlyWhenStarving(s: State)
    requires Inv(s) && Busy(s)
    ensures (forall e :: Progress(e) ==> !Enabled(s, e)) <==> Starving(s)
  {
    if Starving(s) {
      LockFacts(s);
      forall e | Progress(e)
        ensures !Enabled(s, e)
      {
      }
    } else {
      NextStepEnabled(s);
    }
  }

  /** Any arrival, end, reset or loss ends the starvation. */
  lemma EnvironmentUnblocks(s: State, e: Event)
    requires Inv(s) && Starving(s) && Enabled(s, e) && (e.Arrive? || e.FinArrive? || e.RstArrive? || e.Lose?)
    ensures !Starving(Apply(s, e)) && Busy(Apply(s, e)) && Inv(Apply(s, e))
  {
    LockFacts(s);
    StepKeepsInv(s, e);
    assert Apply(s, e).calls[s.lock.holder.value].phase == Holding;
  }

  /** Remaining bytes plus remaining phases of one call. */
  function Weight(c: Call): nat {
    var room := if c.op.Recv? || Room(c) < 0 then 0 else Room(c);
    match c.phase
    case Queued => room + 2
    case Holding => room + 1
    case Done(_) => 0
  }

  function WeightAt(calls: seq<Call>, i: nat): nat {
    if i < |calls| then Weight(calls[i]) else 0
  }

  function Work(calls: seq<Call>): nat {
    Sum((i: nat) => WeightAt(calls, i), |calls|)
  }

  lemma WorkUpdate(calls: seq<Call>, i: nat, c: Call)
    requires i < |calls|
    ensures Work(calls[i := c]) == Work(calls) - Weight(calls[i]) + Weight(c)
  {
    SumUpdate((j: nat) => WeightAt(calls, j), (j: nat) => WeightAt(calls[i := c], j), |calls|, i);
  }

  lemma StepWork(s: State, e: Event)
    requires Inv(s) && Enabled(s, e) && !e.Invoke?
    ensures Work(Apply(s, e).calls) <= Work(s.calls)
    ensures Progress(e) ==> Work(Apply(s, e).calls) < Work(s.calls)
  {
    LockFacts(s);
    var t := Apply(s, e);
    if Progress(e) || e.Cancel? {
      var i := if e.Grant? then s.lock.queue[0] else if e.Cancel? then e.call else s.lock.holder.value;
      assert t.calls == s.calls[i := t.calls[i]];
      WorkUpdate(s.calls, i, t.calls[i]);
      assert Weight(t.calls[i]) <= Weight(s.calls[i]) && (Progress(e) ==> Weight(t.calls[i]) < Weight(s.calls[i]));
    }
  }

  function CountProgress(run: seq<Event>): nat {
    if run == [] then 0 else (if Progress(run[0]) then 1 else 0) + CountProgress(run[1..])
  }

  /** However the bytes arrive and however they are cut up, the calls already made take at most
      this many steps among them. */
  lemma {:induction false} ProgressIsBounded(s: State, run: seq<Event>)
    requires Inv(s) && Legal(s, run) && forall e :: e in run ==> !e.Invoke?
    ensures CountProgress(run) + Work(Exec(s, run).calls) <= Work(s.calls)
    decreases |run|
  {
    if run != [] {
      assert run[0] in run;
      assert forall e :: e in run[1..] ==> e in run;
      StepWork(s, run[0]);
      StepKeepsInv(s, run[0]);
      ProgressIsBounded(Apply(s, run[0]), run[1..]);
    }
  }

  /** The first n calls. */
  function Upto(calls: seq<Call>, n: nat): seq<Call> {
    if n <= |calls| then calls[..n] else calls
  }

  /** Call i is waiting for the lock or holds it. */
  predicate Pending(s: State, i: nat) {
    i < |s.calls| && !s.calls[i].phase.Done?
  }

  /** The call a step moves: the one served next, the holder, or the one named. */
  lemma MovedCall(s: State, e: Event) returns (j: nat)
    requires Inv(s) && Enabled(s, e) && (Progress(e) || e.Cancel?)
    ensures j < |s.calls| && Apply(s, e).calls == s.calls[j := Apply(s, e).calls[j]]
    ensures Weight(Apply(s, e).calls[j]) <= Weight(s.calls[j])
    ensures Progress(e) ==> Weight(Apply(s, e).calls[j]) < Weight(s.calls[j])
    ensures Progress(e) ==> if e.Grant? then s.lock.queue[0] == j else s.lock.holder == Some(j)
  {
    LockFacts(s);
    j := if e.Grant? then s.lock.queue[0] else if Progress(e) then s.lock.holder.value else e.call;
    assert CallInv(s, j);
  }

  /** The holder and the next in the queue come no later than any pending call. */
  lemma ServedInOrder(s: State, i: nat)
    requires Inv(s) && Pending(s, i)
    ensures s.lock.holder.Some? ==> s.lock.holder.value <= i
    ensures s.lock.holder.None? && s.lock.queue != [] ==> s.lock.queue[0] <= i
  {
    LockFacts(s);
    assert CallInv(s, i);
  }

  /** While call i is pending, every call step belongs to it or to an earlier call. */
  lemma AheadStep(s: State, e: Event, i: nat)
    requires Inv(s) && Pending(s, i) && Enabled(s, e)
    ensures var ahead := Work(Upto(Apply(s, e).calls, i + 1));
      && ahead <= Work(Upto(s.calls, i + 1))
      && (Progress(e) ==> ahead < Work(Upto(s.calls, i + 1)))
  {
    var t := Apply(s, e);
    if Progress(e) || e.Cancel? {
      var j := MovedCall(s, e);
      ServedInOrder(s, i);
      if j <= i {
        assert Upto(t.calls, i + 1) == Upto(s.calls, i + 1)[j := t.calls[j]];
        WorkUpdate(Upto(s.calls, i + 1), j, t.calls[j]);
      } else {
        assert Upto(t.calls, i + 1) == Upto(s.calls, i + 1);
      }
    } else {
      assert Upto(t.calls, i + 1) == Upto(s.calls, i + 1);
    }
  }

  lemma DoneStaysDone(s: State, e: Event, i: nat)
    requires Inv(s) && Enabled(s, e) && i < |s.calls| && !Pending(s, i)
    ensures !Pending(Apply(s, e), i)
  {
    LockFacts(s);
    assert CallInv(s, i);
  }

  lemma {:induction false} PendingBefore(s: State, run: seq<Event>, i: nat)
    requires Inv(s) && Legal(s, run) && i < |s.calls| && Pending(Exec(s, run), i)
    ensures Pending(s, i)
    decreases |run|
  {
    if run != [] {
      StepKeepsInv(s, run[0]);
      PendingBefore(Apply(s, run[0]), run[1..], i);
      if !Pending(s, i) {
        DoneStaysDone(s, run[0], i);
      }
    }
  }

  /** Nobody is overtaken: over any run whatever - any number of new readers included - a call
      still pending at the end has seen at most as many call steps as there was work in it and in
      the calls made before it. */
  lemma {:induction false} WaitIsBounded(s: State, run: seq<Event>, i: nat)
    requires Inv(s) && Legal(s, run) && i < |s.calls| && Pending(Exec(s, run), i)
    ensures CountProgress(run) + Work(Upto(Exec(s, run).calls, i + 1)) <= Work(Upto(s.calls, i + 1))
    decreases |run|
  {
    if run != [] {
      PendingBefore(s, run, i);
      AheadStep(s, run[0], i);
      StepKeepsInv(s, run[0]);
      WaitIsBounded(Apply(s, run[0]), run[1..], i);
    }
  }
}
