/** The receive half of a stream (`IrohStream.recv`, `IrohRecvStream.inner`) under any number
    of concurrent callers. Every operation takes the half's own lock and keeps the guard until
    it returns, fails or is cancelled.

    Assumptions about the library: bytes arrive in order (section 2.2 of RFC 9000) and the end
    of the stream is known once all of them have (section 3.2); `read` hands over a non-empty
    piece of what has arrived in one step, so dropping it loses nothing; `read_exact` and
    `read_to_end` collect piece by piece; an empty buffer is filled at once; a `read_to_end`
    that did not return leaves the half unusable for further reads. */
module RecvHalf {
  import opened Prelude
  import opened FifoLock

  /** `Query` stands for the id calls. */
  datatype Op =
    | Recv(max: nat)
    | ReadExact(n: nat)
    | ReadToEnd(max: nat)
    | Stop(code: nat)
    | Query

  /** `data` is a read's answer: None from `recv` means end of stream. */
  datatype Outcome = Ok(data: Option<Bytes>) | Failed | Cancelled

  datatype Phase = Queued | Holding | Done(outcome: Outcome)

  /** `got` is what this call has taken off the stream. */
  datatype Call = Call(op: Op, phase: Phase, got: Bytes)

  /** `spoiled` is the `read_to_end` call, if any, that first left the half unusable. */
  datatype Half = Half(feed: Bytes, taken: nat, fin: bool, rst: bool, stop: Option<nat>, lost: bool, spoiled: Option<nat>)

  datatype State = State(calls: seq<Call>, lock: Lock, half: Half)

  datatype Event =
    | Invoke(op: Op)
    | Grant
    | Take(k: nat)         // the holder is handed its next k bytes
    | Return               // the holder has its answer
    | Fail                 // the holder's read reports an error
    | DoStop(ok: bool)
    | DoQuery
    | Cancel(call: nat)
    | Arrive(bytes: Bytes)
    | FinArrive
    | RstArrive
    | Lose

  const INIT := State([], FREE, Half([], 0, false, false, None, false, None))

  predicate Reader(op: Op) {
    op.Recv? || op.ReadExact? || op.ReadToEnd?
  }

  predicate AtEnd(h: Half) {
    h.fin && h.taken == |h.feed|
  }

  predicate Intact(h: Half) {
    !h.rst && h.stop.None? && h.spoiled.None?
  }

  /** Everything that had arrived is consumed and no more will. */
  predicate Dead(h: Half) {
    h.lost && !h.fin && h.taken == |h.feed|
  }

  predicate HolderIs(s: State, p: Call -> bool) {
    s.lock.holder.Some? && s.lock.holder.value < |s.calls| && p(s.calls[s.lock.holder.value])
  }

  /** How many more bytes a call may take. */
  function Room(c: Call): int {
    match c.op
    case Recv(max) => max - |c.got|
    case ReadExact(n) => n - |c.got|
    case ReadToEnd(max) => max - |c.got|
    case _ => 0
  }

  predicate CanReturn(h: Half, c: Call) {
    match c.op
    case Recv(max) => max == 0 || (Intact(h) && AtEnd(h))
    case ReadExact(n) => |c.got| == n
    case ReadToEnd(max) => Intact(h) && AtEnd(h)
    case _ => false
  }

  function Answer(c: Call): Outcome {
    if c.op.Recv? && c.op.max > 0 then Ok(None) else Ok(Some(c.got))
  }

  predicate CanFail(h: Half, c: Call) {
    match c.op
    case Recv(max) => max > 0 && (!Intact(h) || Dead(h))
    case ReadExact(n) => |c.got| < n && (!Intact(h) || Dead(h) || AtEnd(h))
    case ReadToEnd(max) => !Intact(h) || Dead(h) || |c.got| + (|h.feed| - h.taken) > max
    case _ => false
  }

  predicate Enabled(s: State, e: Event) {
    match e
    case Invoke(op) => true
    case Grant => CanGrant(s.lock) && s.lock.queue[0] < |s.calls|
    case Take(k) =>
      Intact(s.half) && 1 <= k <= |s.half.feed| - s.half.taken && HolderIs(s, (c: Call) => Reader(c.op) && k <= Room(c))
    case Return => HolderIs(s, (c: Call) => CanReturn(s.half, c))
    case Fail => HolderIs(s, (c: Call) => CanFail(s.half, c))
    case DoStop(ok) => HolderIs(s, (c: Call) => c.op.Stop?) && (ok ==> s.half.stop.None?)
    case DoQuery => HolderIs(s, (c: Call) => c.op.Query?)
    case Cancel(i) => i < |s.calls| && !s.calls[i].phase.Done? && Reader(s.calls[i].op)
    case Arrive(bytes) => !s.half.fin && !s.half.rst && !s.half.lost && bytes != []
    case FinArrive => !s.half.fin && !s.half.rst && !s.half.lost
    case RstArrive => !s.half.fin && !s.half.lost
    case Lose => true
  }

  function Settle(s: State, i: nat, outcome: Outcome): State
    requires i < |s.calls|
  {
    s.(calls := s.calls[i := s.calls[i].(phase := Done(outcome))], lock := Leave(s.lock, i))
  }

  /** A read that stops short while it holds the guard; only `read_to_end` spoils the half. */
  function Abandon(s: State, i: nat, outcome: Outcome): State
    requires i < |s.calls|
  {
    var spoils := s.half.spoiled.None? && s.lock.holder == Some(i) && s.calls[i].op.ReadToEnd?;
    Settle(s, i, outcome).(half := s.half.(spoiled := if spoils then Some(i) else s.half.spoiled))
  }

  function Admit(s: State, op: Op): State {
    if op.Stop? && op.code >= VARINT_LIMIT then
      s.(calls := s.calls + [Call(op, Done(Failed), [])])
    else
      State(s.calls + [Call(op, Queued, [])], Enqueue(s.lock, |s.calls|), s.half)
  }

  /** The next k bytes change hands; `recv` returns with them on the spot. */
  function Hand(s: State, k: nat): State
    requires Enabled(s, Take(k))
  {
    var i := s.lock.holder.value;
    var got := s.calls[i].got + s.half.feed[s.half.taken..s.half.taken + k];
    var t := s.(calls := s.calls[i := s.calls[i].(got := got)], half := s.half.(taken := s.half.taken + k));
    if s.calls[i].op.Recv? then Settle(t, i, Ok(Some(got))) else t
  }

  function Apply(s: State, e: Event): State
    requires Enabled(s, e)
  {
    match e
    case Invoke(op) => Admit(s, op)
    case Grant =>
      s.(calls := s.calls[s.lock.queue[0] := s.calls[s.lock.queue[0]].(phase := Holding)], lock := FifoLock.Grant(s.lock))
    case Take(k) => Hand(s, k)
    case Return => Settle(s, s.lock.holder.value, Answer(s.calls[s.lock.holder.value]))
    case Fail => Abandon(s, s.lock.holder.value, Failed)
    case DoStop(ok) =>
      var i := s.lock.holder.value;
      if ok then Settle(s, i, Ok(None)).(half := s.half.(stop := Some(s.calls[i].op.code)))
      else Settle(s, i, Failed)
    case DoQuery => Settle(s, s.lock.holder.value, Ok(None))
    case Cancel(i) => Abandon(s, i, Cancelled)
    case Arrive(bytes) => s.(half := s.half.(feed := s.half.feed + bytes))
    case FinArrive => s.(half := s.half.(fin := true))
    case RstArrive => s.(half := s.half.(rst := true))
    case Lose => s.(half := s.half.(lost := true))
  }

  predicate Legal(s: State, run: seq<Event>)
    decreases |run|
  {
    run == [] || (Enabled(s, run[0]) && Legal(Apply(s, run[0]), run[1..]))
  }

  function Exec(s: State, run: seq<Event>): State
    requires Legal(s, run)
    decreases |run|
  {
    if run == [] then s else Exec(Apply(s, run[0]), run[1..])
  }

  lemma {:induction false} LegalAppend(s: State, first: seq<Event>, second: seq<Event>)
    requires Legal(s, first) && Legal(Exec(s, first), second)
    ensures Legal(s, first + second) && Exec(s, first + second) == Exec(Exec(s, first), second)
    decreases |first|
  {
    if first == [] {
      assert first + second == second;
    } else {
      assert (first + second)[1..] == first[1..] + second;
      LegalAppend(Apply(s, first[0]), first[1..], second);
    }
  }

  // ---------------------------------------------------------------- the invariant

  function Got(calls: seq<Call>, i: nat): Bytes {
    if i < |calls| then calls[i].got else []
  }

  function Consumed(calls: seq<Call>, order: seq<nat>): Bytes {
    Joined((i: nat) => Got(calls, i), order)
  }

  /** Why call i may have failed whatever it wanted: a reset, a stop, a loss before the end, or
      an earlier call that spoiled the half. None of these ever goes away. */
  predicate Troubled(h: Half, i: nat) {
    h.rst || h.stop.Some? || (h.lost && !h.fin) || (h.spoiled.Some? && h.spoiled.value < i)
  }

  /** What the result of call i, c, says, given what is now known of the stream. */
  ghost predicate ResultInv(h: Half, c: Call, i: nat) {
    match c.op
    case Recv(max) =>
      && |c.got| <= max
      && (c.got != [] ==> c.phase == Done(Ok(Some(c.got))))
      && (c.phase.Done? && c.phase.outcome.Ok? ==>
            if c.phase.outcome.data.None? then max > 0 && AtEnd(h)
            else c.phase.outcome.data.value == c.got && (max > 0 ==> c.got != []))
      && (c.phase == Done(Failed) ==> Troubled(h, i))
    case ReadExact(n) =>
      && |c.got| <= n
      && (c.phase.Done? && c.phase.outcome.Ok? ==> c.phase.outcome.data == Some(c.got) && |c.got| == n)
      && (c.phase == Done(Failed) ==> Troubled(h, i) || AtEnd(h))
    case ReadToEnd(max) =>
      && |c.got| <= max
      && (c.phase.Done? && c.phase.outcome.Ok? ==> c.phase.outcome.data == Some(c.got) && AtEnd(h))
      && (c.phase == Done(Failed) ==> h.spoiled.Some?)
    case Stop(code) => c.got == [] && (c.phase.Done? && c.phase.outcome.Ok? ==> c.phase.outcome.data.None? && h.stop == Some(code))
    case Query => c.got == [] && (c.phase.Done? && c.phase.outcome.Ok? ==> c.phase.outcome.data.None?)
  }

  ghost predicate CallInv(s: State, i: nat)
    requires i < |s.calls|
  {
    var c := s.calls[i];
    && (c.phase == Queued <==> i in s.lock.queue)
    && (c.phase == Holding <==> s.lock.holder == Some(i))
    && (c.phase == Queued ==> c.got == [])
    && (c.got != [] || (c.phase.Done? && c.phase.outcome.Ok?) ==> i in s.lock.granted)
    && ResultInv(s.half, c, i)
  }

  /** The half is spoiled only by a `read_to_end` that held the lock and did not return. */
  ghost predicate SpoilInv(s: State) {
    s.half.spoiled.Some? ==>
      var j := s.half.spoiled.value;
      j in s.lock.granted && j < |s.calls| && s.calls[j].op.ReadToEnd? && s.calls[j].phase.Done? && !s.calls[j].phase.outcome.Ok?
  }

  ghost predicate Inv(s: State) {
    && Valid(s.lock, |s.calls|)
    && (forall i :: 0 <= i < |s.calls| ==> CallInv(s, i))
    && s.half.taken <= |s.half.feed|
    && Consumed(s.calls, s.lock.granted) == s.half.feed[..s.half.taken]
    && SpoilInv(s)
  }

  lemma LockFacts(s: State)
    requires Inv(s)
    ensures s.lock.holder.Some? ==>
      && s.lock.holder.value < |s.calls|
      && CallInv(s, s.lock.holder.value)
      && s.lock.holder.value in s.lock.granted
    ensures s.lock.queue != [] ==> s.lock.queue[0] < |s.calls| && s.calls[s.lock.queue[0]].phase == Queued
  {
    if s.lock.holder.Some? {
      assert s.lock.holder.value in s.lock.granted;
    }
    if s.lock.queue != [] {
      assert s.lock.queue[0] in s.lock.queue;
      assert CallInv(s, s.lock.queue[0]);
    }
  }

  lemma ConsumedFrame(before: seq<Call>, after: seq<Call>, order: seq<nat>)
    requires forall i :: i in order ==> Got(before, i) == Got(after, i)
    ensures Consumed(before, order) == Consumed(after, order)
  {
    JoinedFrame((i: nat) => Got(before, i), (i: nat) => Got(after, i), order);
  }

  lemma SettleKeepsInv(s: State, i: nat, outcome: Outcome)
    requires Inv(s) && i < |s.calls|
    requires ResultInv(s.half, s.calls[i].(phase := Done(outcome)), i) && !s.calls[i].phase.Done?
    requires outcome.Ok? ==> i in s.lock.granted
    ensures Inv(Settle(s, i, outcome))
  {
    var t := Settle(s, i, outcome);
    LeaveValid(s.lock, i, |s.calls|);
    ConsumedFrame(s.calls, t.calls, s.lock.granted);
    assert CallInv(s, i);
    forall j | 0 <= j < |t.calls|
      ensures CallInv(t, j)
    {
      assert CallInv(s, j);
    }
  }

  lemma InvokeKeepsInv(s: State, op: Op)
    requires Inv(s)
    ensures Inv(Admit(s, op))
  {
    var t := Admit(s, op);
    EnqueueValid(s.lock, |s.calls|);
    ConsumedFrame(s.calls, t.calls, s.lock.granted);
    LockFacts(s);
    forall j | 0 <= j < |t.calls|
      ensures CallInv(t, j)
    {
      if j < |s.calls| {
        assert CallInv(s, j);
      }
    }
  }

  lemma GrantKeepsInv(s: State)
    requires Inv(s) && Enabled(s, Event.Grant)
    ensures Inv(Apply(s, Event.Grant))
  {
    var t := Apply(s, Event.Grant);
    var i := s.lock.queue[0];
    GrantValid(s.lock, |s.calls|);
    assert CallInv(s, i);
    assert Front(t.lock.granted) == s.lock.granted;
    ConsumedFrame(s.calls, t.calls, s.lock.granted);
    forall j | 0 <= j < |t.calls|
      ensures CallInv(t, j)
    {
      assert CallInv(s, j);
      assert j in t.lock.queue <==> j in s.lock.queue && j != i;
    }
  }

  lemma ConsumedGrows(calls: seq<Call>, after: seq<Call>, order: seq<nat>, chunk: Bytes)
    requires order != [] && Ascending(order)
    requires forall j :: j in Front(order) ==> Got(after, j) == Got(calls, j)
    requires Got(after, Last(order)) == Got(calls, Last(order)) + chunk
    ensures Consumed(after, order) == Consumed(calls, order) + chunk
  {
    JoinedGrow((j: nat) => Got(calls, j), (j: nat) => Got(after, j), order, chunk);
  }

  /** Bytes handed to the holder extend what the calls have consumed, in lock order. */
  lemma HandConsumes(s: State, k: nat)
    requires Inv(s) && Enabled(s, Take(k))
    ensures var t := Hand(s, k);
      Consumed(t.calls, t.lock.granted) == t.half.feed[..t.half.taken]
  {
    HolderIsLatest(s.lock, |s.calls|);
    var t := Hand(s, k);
    var chunk := s.half.feed[s.half.taken..s.half.taken + k];
    ConsumedGrows(s.calls, t.calls, s.lock.granted, chunk);
    assert s.half.feed[..s.half.taken + k] == s.half.feed[..s.half.taken] + chunk;
  }

  /** Before the end, no answer depends on how much has been consumed. */
  lemma ResultStable(h: Half, c: Call, i: nat, taken: nat)
    requires ResultInv(h, c, i) && h.taken < |h.feed|
    ensures ResultInv(h.(taken := taken), c, i)
  {
  }

  lemma HolderAfterHand(s: State, k: nat)
    requires Inv(s) && Enabled(s, Take(k))
    ensures CallInv(Hand(s, k), s.lock.holder.value)
  {
    LockFacts(s);
    ResultStable(s.half, s.calls[s.lock.holder.value], s.lock.holder.value, s.half.taken + k);
  }

  lemma HandKeepsInv(s: State, k: nat)
    requires Inv(s) && Enabled(s, Take(k))
    ensures Inv(Hand(s, k))
  {
    var t := Hand(s, k);
    var i := s.lock.holder.value;
    HandConsumes(s, k);
    HolderAfterHand(s, k);
    LeaveValid(s.lock, i, |s.calls|);
    forall j | 0 <= j < |t.calls| && j != i
      ensures CallInv(t, j)
    {
      assert CallInv(s, j);
      ResultStable(s.half, s.calls[j], j, t.half.taken);
    }
  }

  lemma HalfKeepsInv(s: State, h: Half)
    requires Inv(s) && s.half.feed <= h.feed && h.taken == s.half.taken && (AtEnd(s.half) ==> AtEnd(h))
    requires (s.half.rst ==> h.rst) && (s.half.lost && !s.half.fin ==> h.lost && !h.fin)
    requires h.spoiled == s.half.spoiled && (s.half.stop.Some? ==> h.stop == s.half.stop)
    ensures Inv(s.(half := h))
  {
    var t := s.(half := h);
    forall j | 0 <= j < |s.calls|
      ensures CallInv(t, j)
    {
      assert CallInv(s, j);
    }
  }

  /** The holder, a `read_to_end`, stops short and spoils the half. */
  lemma SpoilKeepsInv(s: State, i: nat, outcome: Outcome)
    requires Inv(s) && s.lock.holder == Some(i) && i < |s.calls| && s.calls[i].op.ReadToEnd? && s.half.spoiled.None?
    requires outcome.Cancelled? || outcome.Failed?
    ensures Inv(Abandon(s, i, outcome))
  {
    var t := Abandon(s, i, outcome);
    LockFacts(s);
    LeaveValid(s.lock, i, |s.calls|);
    ConsumedFrame(s.calls, t.calls, s.lock.granted);
    forall j | 0 <= j < |t.calls|
      ensures CallInv(t, j)
    {
      assert CallInv(s, j);
    }
  }

  lemma AbandonKeepsInv(s: State, i: nat, outcome: Outcome)
    requires Inv(s) && i < |s.calls| && !s.calls[i].phase.Done? && Reader(s.calls[i].op)
    requires outcome.Cancelled? || (outcome.Failed? && s.lock.holder == Some(i) && CanFail(s.half, s.calls[i]))
    ensures Inv(Abandon(s, i, outcome))
  {
    assert CallInv(s, i);
    if s.half.spoiled.None? && s.lock.holder == Some(i) && s.calls[i].op.ReadToEnd? {
      SpoilKeepsInv(s, i, outcome);
    } else {
      if s.half.spoiled.Some? && outcome.Failed? {
        SpoiledEarlier(s, i);
      }
      SettleKeepsInv(s, i, outcome);
    }
  }

  /** Whoever spoiled the half did so before the present holder had the lock. */
  lemma SpoiledEarlier(s: State, i: nat)
    requires Inv(s) && s.lock.holder == Some(i) && s.half.spoiled.Some?
    ensures s.half.spoiled.value < i
  {
    LockFacts(s);
    var j := s.half.spoiled.value;
    var q :| 0 <= q < |s.lock.granted| && s.lock.granted[q] == j;
    assert q < |s.lock.granted| - 1;
  }

  lemma StopKeepsInv(s: State, ok: bool)
    requires Inv(s) && Enabled(s, DoStop(ok))
    ensures Inv(Apply(s, DoStop(ok)))
  {
    LockFacts(s);
    var outcome := if ok then Ok(None) else Failed;
    var h := Apply(s, DoStop(ok)).half;
    HalfKeepsInv(s, h);
    SettleKeepsInv(s.(half := h), s.lock.holder.value, outcome);
  }

  lemma StepKeepsInv(s: State, e: Event)
    requires Inv(s) && Enabled(s, e)
    ensures Inv(Apply(s, e))
  {
    LockFacts(s);
    match e
    case Invoke(op) => InvokeKeepsInv(s, op);
    case Grant => GrantKeepsInv(s);
    case Take(k) => HandKeepsInv(s, k);
    case Return => SettleKeepsInv(s, s.lock.holder.value, Answer(s.calls[s.lock.holder.value]));
    case Fail => AbandonKeepsInv(s, s.lock.holder.value, Failed);
    case DoStop(ok) => StopKeepsInv(s, ok);
    case DoQuery => SettleKeepsInv(s, s.lock.holder.value, Ok(None));
    case Cancel(i) => AbandonKeepsInv(s, i, Cancelled);
    case Arrive(bytes) => HalfKeepsInv(s, Apply(s, e).half);
    case FinArrive => HalfKeepsInv(s, Apply(s, e).half);
    case RstArrive => HalfKeepsInv(s, Apply(s, e).half);
    case Lose => HalfKeepsInv(s, Apply(s, e).half);
  }

  lemma {:induction false} RunKeepsInv(s: State, run: seq<Event>)
    requires Inv(s) && Legal(s, run)
    ensures Inv(Exec(s, run))
    decreases |run|
  {
    if run != [] {
      StepKeepsInv(s, run[0]);
      RunKeepsInv(Apply(s, run[0]), run[1..]);
    }
  }
}
