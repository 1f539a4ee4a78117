/** The send half of a stream (`IrohStream.send`, `IrohSendStream.inner`) under any number of
    concurrent callers, as a labelled transition system.

    What the wrapper decides: every operation takes the half's lock first; `send_bytes` keeps
    the guard over the whole of `write_all`; `stopped` drops it before it waits.

    What the environment decides (assumptions about the library): a write appends a non-empty
    chunk of what is left, within the credit the peer and the congestion window have granted, or
    fails because the stream is no longer writable; with no credit it waits; `finish` and
    `reset` follow the sending states of section 3.1 of RFC 9000; while the connection lives the
    peer may grant credit, stop or acknowledge; the connection may be lost; any asynchronous call
    may be cancelled, and a cancelled call gives up its guard or its place in the queue. */
module SendHalf {
  import opened Prelude
  import opened FifoLock

  datatype Sending = Ready | Send | DataSent | DataRecvd | ResetSent | ResetRecvd

  /** `Query` stands for the lock-read-unlock calls: priority, set_priority and the ids. */
  datatype Op =
    | SendBytes(data: Bytes)
    | Finish
    | Reset(code: nat)
    | Stopped
    | Query

  /** `code` is `stopped`'s answer; the other operations answer None. */
  datatype Outcome = Ok(code: Option<nat>) | Failed | Cancelled

  datatype Phase = Queued | Holding | Awaiting | Done(outcome: Outcome)

  /** `sent` counts the bytes of this call already appended to the stream. */
  datatype Call = Call(op: Op, phase: Phase, sent: nat)

  /** What the mutex guards, plus what the transport knows about it. `credit` is how many more
      bytes the transport will take for now (section 4 of RFC 9000). */
  datatype Half = Half(written: Bytes, sending: Sending, peerStop: Option<nat>, lost: bool, credit: nat)

  datatype State = State(calls: seq<Call>, lock: Lock, half: Half)

  datatype Event =
    | Invoke(op: Op)      // a task calls in and joins the queue
    | Grant               // the lock goes to the longest waiter
    | Write(k: nat)       // the transport accepts the holder's next k bytes
    | Complete            // write_all has nothing left
    | WriteFail           // write_all meets a stream that is no longer writable
    | DoFinish
    | DoReset
    | DoQuery(ok: bool)
    | Detach              // stopped: future created, guard dropped
    | Park                // NOT this code: stopped waiting with the guard still held
    | Resolve(call: nat)  // the future returned by stopped completes
    | Cancel(call: nat)
    | Credit(n: nat)      // the transport will take n more bytes
    | PeerStop(code: nat)
    | PeerAck
    | Lose                // the connection is lost

  const INIT := State([], FREE, Half([], Ready, None, false, 0))

  function Data(op: Op): Bytes {
    if op.SendBytes? then op.data else []
  }

  /** `reset` and the queries are synchronous; every other call can be dropped half-way. */
  predicate Cancellable(op: Op) {
    !op.Reset? && !op.Query?
  }

  predicate Open(h: Half) {
    h.sending == Ready || h.sending == Send
  }

  predicate Writable(h: Half) {
    Open(h) && h.peerStop.None? && !h.lost
  }

  /** When the future behind `stopped` is ready: the peer stopped the stream, the stream is
      acknowledged in full, or the connection is gone. */
  predicate Resolved(h: Half) {
    h.peerStop.Some? || h.sending == DataRecvd || h.sending == ResetRecvd || h.lost
  }

  function Answer(h: Half): Outcome
    requires Resolved(h)
  {
    if h.peerStop.Some? then Ok(h.peerStop)
    else if h.sending == DataRecvd || h.sending == ResetRecvd then Ok(None)
    else Failed
  }

  predicate HolderIs(s: State, p: Call -> bool) {
    s.lock.holder.Some? && s.lock.holder.value < |s.calls| && p(s.calls[s.lock.holder.value])
  }

  /** The transitions of the code as written. */
  predicate Enabled(s: State, e: Event) {
    match e
    case Invoke(op) => true
    case Grant => CanGrant(s.lock) && s.lock.queue[0] < |s.calls|
    case Write(k) =>
      Writable(s.half) && k <= s.half.credit && HolderIs(s, (c: Call) => c.op.SendBytes? && 1 <= k <= |c.op.data| - c.sent)
    case Complete => HolderIs(s, (c: Call) => c.op.SendBytes? && c.sent == |c.op.data|)
    case WriteFail =>
      !Writable(s.half) && HolderIs(s, (c: Call) => c.op.SendBytes? && c.sent < |c.op.data|)
    case DoFinish => HolderIs(s, (c: Call) => c.op.Finish?)
    case DoReset => HolderIs(s, (c: Call) => c.op.Reset?)
    case DoQuery(ok) => HolderIs(s, (c: Call) => c.op.Query?)
    case Detach => HolderIs(s, (c: Call) => c.op.Stopped?)
    case Park => false
    case Resolve(i) => i < |s.calls| && s.calls[i].phase == Awaiting && Resolved(s.half)
    case Cancel(i) => i < |s.calls| && !s.calls[i].phase.Done? && Cancellable(s.calls[i].op)
    case Credit(n) => n > 0 && !s.half.lost
    case PeerStop(code) => s.half.peerStop.None? && !s.half.lost
    case PeerAck => (s.half.sending == DataSent || s.half.sending == ResetSent) && !s.half.lost
    case Lose => true
  }

  function Settle(s: State, i: nat, outcome: Outcome): State
    requires i < |s.calls|
  {
    s.(calls := s.calls[i := s.calls[i].(phase := Done(outcome))], lock := Leave(s.lock, i))
  }

  function Admit(s: State, op: Op): State {
    if op.Reset? && op.code >= VARINT_LIMIT then
      s.(calls := s.calls + [Call(op, Done(Failed), 0)])
    else
      State(s.calls + [Call(op, Queued, 0)], Enqueue(s.lock, |s.calls|), s.half)
  }

  function Append(h: Half, chunk: Bytes): Half
    requires |chunk| <= h.credit
  {
    h.(written := h.written + chunk, sending := Send, credit := h.credit - |chunk|)
  }

  /** Section 3.1 of RFC 9000: a finish leaves Ready or Send; on a stopped stream the library
      accepts it and does nothing. */
  function FinishHalf(h: Half): (Half, Outcome) {
    if !Open(h) then (h, Failed)
    else if h.peerStop.Some? then (h, Ok(None))
    else (h.(sending := DataSent), Ok(None))
  }

  function ResetHalf(h: Half): (Half, Outcome) {
    if Open(h) || h.sending == DataSent then (h.(sending := ResetSent), Ok(None)) else (h, Failed)
  }

  function Apply(s: State, e: Event): State
    requires Enabled(s, e) || (e.Park? && Enabled(s, Detach))
  {
    match e
    case Invoke(op) => Admit(s, op)
    case Grant =>
      s.(calls := s.calls[s.lock.queue[0] := s.calls[s.lock.queue[0]].(phase := Holding)], lock := FifoLock.Grant(s.lock))
    case Write(k) =>
      var i := s.lock.holder.value;
      var c := s.calls[i];
      s.(calls := s.calls[i := c.(sent := c.sent + k)], half := Append(s.half, c.op.data[c.sent..c.sent + k]))
    case Complete => Settle(s, s.lock.holder.value, Ok(None))
    case WriteFail => Settle(s, s.lock.holder.value, Failed)
    case DoFinish =>
      Settle(s, s.lock.holder.value, FinishHalf(s.half).1).(half := FinishHalf(s.half).0)
    case DoReset =>
      Settle(s, s.lock.holder.value, ResetHalf(s.half).1).(half := ResetHalf(s.half).0)
    case DoQuery(ok) => Settle(s, s.lock.holder.value, if ok then Ok(None) else Failed)
    case Detach =>
      var i := s.lock.holder.value;
      s.(calls := s.calls[i := s.calls[i].(phase := Awaiting)], lock := Leave(s.lock, i))
    case Park =>
      var i := s.lock.holder.value;
      s.(calls := s.calls[i := s.calls[i].(phase := Awaiting)])
    case Resolve(i) => Settle(s, i, Answer(s.half))
    case Cancel(i) => Settle(s, i, Cancelled)
    case Credit(n) => s.(half := s.half.(credit := s.half.credit + n))
    case PeerStop(code) => s.(half := s.half.(peerStop := Some(code)))
    case PeerAck =>
      s.(half := s.half.(sending := if s.half.sending == DataSent then DataRecvd else ResetRecvd))
    case Lose => s.(half := s.half.(lost := true))
  }

  predicate Legal(s: State, run: seq<Event>)
    decreases |run|
  {
    run == [] || (Enabled(s, run[0]) && Legal(Apply(s, run[0]), run[1..]))
  }

  function Exec(s: State, run: seq<Event>): State
    requires Legal(s, run)
    decreases |run|
  {
    if run == [] then s else Exec(Apply(s, run[0]), run[1..])
  }

  lemma {:induction false} LegalAppend(s: State, first: seq<Event>, second: seq<Event>)
    requires Legal(s, first) && Legal(Exec(s, first), second)
    ensures Legal(s, first + second) && Exec(s, first + second) == Exec(Exec(s, first), second)
    decreases |first|
  {
    if first == [] {
      assert first + second == second;
    } else {
      assert (first + second)[1..] == first[1..] + second;
      LegalAppend(Apply(s, first[0]), first[1..], second);
    }
  }

  lemma {:induction false} OpsNeverChange(s: State, run: seq<Event>)
    requires Legal(s, run)
    ensures |s.calls| <= |Exec(s, run).calls|
    ensures forall i :: 0 <= i < |s.calls| ==> Exec(s, run).calls[i].op == s.calls[i].op
    decreases |run|
  {
    if run != [] {
      OpsNeverChange(Apply(s, run[0]), run[1..]);
    }
  }

  // ---------------------------------------------------------------- the invariant

  /** The bytes a call has put on the stream: all of its data once it is Ok, else a prefix. */
  function Part(calls: seq<Call>, i: nat): Bytes {
    if i < |calls| && calls[i].sent <= |Data(calls[i].op)| then Data(calls[i].op)[..calls[i].sent] else []
  }

  function Concatenated(calls: seq<Call>, order: seq<nat>): Bytes {
    Joined((i: nat) => Part(calls, i), order)
  }

  /** What the answer of a finished call says about the stream. */
  ghost predicate ResultInv(h: Half, c: Call) {
    c.phase.Done? ==>
      var o := c.phase.outcome;
      && (o.Cancelled? ==> Cancellable(c.op))
      && (o.Ok? && !c.op.Stopped? ==> o.code.None?)
      && match c.op
         case SendBytes(data) => (o.Ok? ==> c.sent == |data|) && (o.Failed? ==> !Writable(h))
         case Finish => (o.Ok? ==> !Open(h) || h.peerStop.Some?) && (o.Failed? ==> !Open(h))
         case Reset(code) =>
           && (o.Ok? ==> h.sending == ResetSent || h.sending == ResetRecvd)
           && (o.Failed? ==> code >= VARINT_LIMIT || (!Open(h) && h.sending != DataSent))
         case Stopped =>
           && (o.Ok? ==> if o.code.Some? then h.peerStop == o.code else h.sending == DataRecvd || h.sending == ResetRecvd)
           && (o.Failed? ==> h.lost)
         case Query => true
  }

  /** How what is known of a stream can develop (sections 3.1 and 3.3 of RFC 9000). */
  predicate CanFollow(a: Sending, b: Sending) {
    match a
    case Ready => true
    case Send => b != Ready
    case DataSent => b == DataSent || b == DataRecvd || b == ResetSent || b == ResetRecvd
    case DataRecvd => b == DataRecvd
    case ResetSent => b == ResetSent || b == ResetRecvd
    case ResetRecvd => b == ResetRecvd
  }

  predicate Later(h: Half, k: Half) {
    && CanFollow(h.sending, k.sending)
    && (h.peerStop.Some? ==> k.peerStop == h.peerStop)
    && (h.lost ==> k.lost)
  }

  ghost predicate CallInv(s: State, i: nat)
    requires i < |s.calls|
  {
    var c := s.calls[i];
    && (c.phase == Queued <==> i in s.lock.queue)
    && (c.phase == Holding <==> s.lock.holder == Some(i))
    && c.sent <= |Data(c.op)|
    && (c.phase == Awaiting ==> c.op.Stopped?)
    && (c.sent > 0 || c.phase == Awaiting ==> i in s.lock.granted)
    && (c.phase.Done? && c.phase.outcome.Ok? ==> i in s.lock.granted)
    && (c.phase == Queued ==> c.sent == 0)
    && (c.sent > 0 && !c.phase.Done? ==> Open(s.half))
    && ResultInv(s.half, c)
  }

  ghost predicate Inv(s: State) {
    && Valid(s.lock, |s.calls|)
    && (forall i :: 0 <= i < |s.calls| ==> CallInv(s, i))
    && s.half.written == Concatenated(s.calls, s.lock.granted)
    && (s.half.sending == Ready ==> s.half.written == [])
  }

  lemma ConcatenatedFrame(before: seq<Call>, after: seq<Call>, order: seq<nat>)
    requires forall i :: i in order ==> Part(before, i) == Part(after, i)
    ensures Concatenated(before, order) == Concatenated(after, order)
  {
    JoinedFrame((i: nat) => Part(before, i), (i: nat) => Part(after, i), order);
  }

  /** Changing phases only changes no part. */
  lemma SettleKeepsInv(s: State, i: nat, outcome: Outcome)
    requires Inv(s) && i < |s.calls|
    requires ResultInv(s.half, s.calls[i].(phase := Done(outcome)))
    requires outcome.Ok? ==> i in s.lock.granted
    ensures Inv(Settle(s, i, outcome))
  {
    var t := Settle(s, i, outcome);
    LeaveValid(s.lock, i, |s.calls|);
    ConcatenatedFrame(s.calls, t.calls, s.lock.granted);
    assert CallInv(s, i);
    forall j | 0 <= j < |t.calls|
      ensures CallInv(t, j)
    {
      assert CallInv(s, j);
    }
  }

  lemma InvokeKeepsInv(s: State, op: Op)
    requires Inv(s)
    ensures Inv(Admit(s, op))
  {
    var t := Admit(s, op);
    EnqueueValid(s.lock, |s.calls|);
    ConcatenatedFrame(s.calls, t.calls, s.lock.granted);
    assert s.lock.holder.Some? ==> s.lock.holder.value in s.lock.granted;
    forall j | 0 <= j < |t.calls|
      ensures CallInv(t, j)
    {
      if j < |s.calls| {
        assert CallInv(s, j);
      }
    }
  }

  lemma GrantKeepsInv(s: State)
    requires Inv(s) && Enabled(s, Event.Grant)
    ensures Inv(Apply(s, Event.Grant))
  {
    var t := Apply(s, Event.Grant);
    var i := s.lock.queue[0];
    GrantValid(s.lock, |s.calls|);
    assert CallInv(s, i);
    assert Front(t.lock.granted) == s.lock.granted;
    ConcatenatedFrame(s.calls, t.calls, s.lock.granted);
    forall j | 0 <= j < |t.calls|
      ensures CallInv(t, j)
    {
      assert CallInv(s, j);
      assert j in t.lock.queue <==> j in s.lock.queue && j != i;
    }
  }

  lemma WriteKeepsInv(s: State, k: nat)
    requires Inv(s) && Enabled(s, Write(k))
    ensures Inv(Apply(s, Write(k)))
  {
    var t := Apply(s, Write(k));
    var i := s.lock.holder.value;
    var c := s.calls[i];
    HolderIsLatest(s.lock, |s.calls|);
    var chunk := c.op.data[c.sent..c.sent + k];
    assert Part(t.calls, i) == Part(s.calls, i) + chunk;
    JoinedGrow((j: nat) => Part(s.calls, j), (j: nat) => Part(t.calls, j), s.lock.granted, chunk);
    forall j | 0 <= j < |t.calls|
      ensures CallInv(t, j)
    {
      assert CallInv(s, j);
    }
  }

  lemma DetachKeepsInv(s: State)
    requires Inv(s) && Enabled(s, Detach)
    ensures Inv(Apply(s, Detach))
  {
    var t := Apply(s, Detach);
    var i := s.lock.holder.value;
    assert CallInv(s, i);
    ConcatenatedFrame(s.calls, t.calls, s.lock.granted);
    forall j | 0 <= j < |t.calls|
      ensures CallInv(t, j)
    {
      assert CallInv(s, j);
    }
  }

  lemma HalfKeepsInv(s: State, h: Half)
    requires Inv(s) && h.written == s.half.written && (h.sending == Ready ==> s.half.sending == Ready)
    requires Later(s.half, h)
    requires Open(s.half) && !Open(h) && HolderIs(s, (c: Call) => true) ==> s.calls[s.lock.holder.value].sent == 0
    ensures Inv(s.(half := h))
  {
    forall j | 0 <= j < |s.calls|
      ensures CallInv(s.(half := h), j)
    {
      assert CallInv(s, j);
    }
  }

  lemma LockFacts(s: State)
    requires Inv(s)
    ensures s.lock.holder.Some? ==>
      && s.lock.holder.value < |s.calls|
      && CallInv(s, s.lock.holder.value)
      && s.lock.holder.value in s.lock.granted
    ensures s.lock.queue != [] ==> s.lock.queue[0] < |s.calls| && s.calls[s.lock.queue[0]].phase == Queued
  {
    if s.lock.holder.Some? {
      assert s.lock.holder.value in s.lock.granted;
    }
    if s.lock.queue != [] {
      assert s.lock.queue[0] in s.lock.queue;
      assert CallInv(s, s.lock.queue[0]);
    }
  }

  lemma FinishKeepsInv(s: State)
    requires Inv(s) && Enabled(s, DoFinish)
    ensures Inv(Apply(s, DoFinish))
  {
    LockFacts(s);
    HalfKeepsInv(s, FinishHalf(s.half).0);
    SettleKeepsInv(s.(half := FinishHalf(s.half).0), s.lock.holder.value, FinishHalf(s.half).1);
  }

  lemma ResetKeepsInv(s: State)
    requires Inv(s) && Enabled(s, DoReset)
    ensures Inv(Apply(s, DoReset))
  {
    LockFacts(s);
    HalfKeepsInv(s, ResetHalf(s.half).0);
    SettleKeepsInv(s.(half := ResetHalf(s.half).0), s.lock.holder.value, ResetHalf(s.half).1);
  }

  lemma ResolveKeepsInv(s: State, i: nat)
    requires Inv(s) && Enabled(s, Resolve(i))
    ensures Inv(Apply(s, Resolve(i)))
  {
    assert CallInv(s, i);
    SettleKeepsInv(s, i, Answer(s.half));
  }

  lemma CancelKeepsInv(s: State, i: nat)
    requires Inv(s) && Enabled(s, Cancel(i))
    ensures Inv(Apply(s, Cancel(i)))
  {
    assert CallInv(s, i);
    SettleKeepsInv(s, i, Cancelled);
  }

  lemma StepKeepsInv(s: State, e: Event)
    requires Inv(s) && Enabled(s, e)
    ensures Inv(Apply(s, e))
  {
    LockFacts(s);
    match e
    case Invoke(op) => InvokeKeepsInv(s, op);
    case Grant => GrantKeepsInv(s);
    case Write(k) => WriteKeepsInv(s, k);
    case Detach => DetachKeepsInv(s);
    case Complete => SettleKeepsInv(s, s.lock.holder.value, Ok(None));
    case WriteFail => SettleKeepsInv(s, s.lock.holder.value, Failed);
    case DoFinish => FinishKeepsInv(s);
    case DoReset => ResetKeepsInv(s);
    case DoQuery(ok) => SettleKeepsInv(s, s.lock.holder.value, if ok then Ok(None) else Failed);
    case Resolve(i) => ResolveKeepsInv(s, i);
    case Cancel(i) => CancelKeepsInv(s, i);
    case Credit(n) => HalfKeepsInv(s, s.half.(credit := s.half.credit + n));
    case PeerStop(code) => HalfKeepsInv(s, s.half.(peerStop := Some(code)));
    case PeerAck => HalfKeepsInv(s, Apply(s, e).half);
    case Lose => HalfKeepsInv(s, s.half.(lost := true));
  }

  lemma {:induction false} RunKeepsInv(s: State, run: seq<Event>)
    requires Inv(s) && Legal(s, run)
    ensures Inv(Exec(s, run))
    decreases |run|
  {
    if run != [] {
      StepKeepsInv(s, run[0]);
      RunKeepsInv(Apply(s, run[0]), run[1..]);
    }
  }
}
