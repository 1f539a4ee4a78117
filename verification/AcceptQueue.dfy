/** The endpoint's single accept queue, shared by any number of `accept_conn` and `accept_next`
    callers. `accept_next` is `accept_conn` followed by accepting a bidirectional stream.
    Connections are numbered in the order they arrive. */
module AcceptQueue {
  import opened Prelude

  datatype Op = AcceptConn | AcceptNext

  datatype Answer =
    | GotConn(conn: nat)     // accept_conn: Some(connection)
    | GotStream(conn: nat)   // accept_next: Some(incoming connection with its stream)
    | Ended                  // None: the endpoint is closed
    | Failed
    | Cancelled

  datatype Phase =
    | Waiting                  // in Endpoint::accept
    | Handshaking(conn: nat)   // holds the incoming connection
    | Accepting(conn: nat)     // accept_next only: connected, waiting for the stream
    | Done(answer: Answer)

  datatype Call = Call(op: Op, phase: Phase)

  /** `dropped` and `delivered` are histories. */
  datatype State = State(arrived: nat, queue: seq<nat>, closed: bool, calls: seq<Call>, dropped: seq<nat>, delivered: seq<nat>)

  datatype Event =
    | Arrive
    | Invoke(op: Op)
    | Pop(call: nat)
    | HandshakeOk(call: nat)
    | HandshakeFail(call: nat)
    | StreamOk(call: nat)
    | StreamFail(call: nat)
    | End(call: nat)
    | Cancel(call: nat)
    | Close

  const INIT := State(0, [], false, [], [], [])

  predicate Enabled(s: State, e: Event) {
    match e
    case Arrive => !s.closed
    case Invoke(op) => true
    case Pop(i) => i < |s.calls| && s.calls[i].phase == Waiting && s.queue != []
    case HandshakeOk(i) => i < |s.calls| && s.calls[i].phase.Handshaking? && !s.closed
    case HandshakeFail(i) => i < |s.calls| && s.calls[i].phase.Handshaking?
    case StreamOk(i) => i < |s.calls| && s.calls[i].phase.Accepting? && !s.closed
    case StreamFail(i) => i < |s.calls| && s.calls[i].phase.Accepting?
    case End(i) => i < |s.calls| && s.calls[i].phase == Waiting && s.closed
    case Cancel(i) => i < |s.calls| && !s.calls[i].phase.Done?
    case Close => true
  }

  function Move(s: State, i: nat, phase: Phase): State
    requires i < |s.calls|
  {
    s.(calls := s.calls[i := s.calls[i].(phase := phase)])
  }

  /** The connection a call holds while it is under way. */
  function HeldBy(c: Call): seq<nat> {
    match c.phase
    case Handshaking(conn) => [conn]
    case Accepting(conn) => [conn]
    case _ => []
  }

  function Apply(s: State, e: Event): State
    requires Enabled(s, e)
  {
    match e
    case Arrive => s.(arrived := s.arrived + 1, queue := s.queue + [s.arrived])
    case Invoke(op) => s.(calls := s.calls + [Call(op, Waiting)])
    case Pop(i) => Move(s, i, Handshaking(s.queue[0])).(queue := s.queue[1..])
    case HandshakeOk(i) =>
      var conn := s.calls[i].phase.conn;
      if s.calls[i].op.AcceptNext? then Move(s, i, Accepting(conn))
      else Move(s, i, Done(GotConn(conn))).(delivered := s.delivered + [conn])
    case HandshakeFail(i) => Move(s, i, Done(Failed)).(dropped := s.dropped + HeldBy(s.calls[i]))
    case StreamOk(i) =>
      var conn := s.calls[i].phase.conn;
      Move(s, i, Done(GotStream(conn))).(delivered := s.delivered + [conn])
    case StreamFail(i) => Move(s, i, Done(Failed)).(dropped := s.dropped + HeldBy(s.calls[i]))
    case End(i) => Move(s, i, Done(Ended))
    case Cancel(i) => Move(s, i, Done(Cancelled)).(dropped := s.dropped + HeldBy(s.calls[i]))
    case Close => s.(closed := true, dropped := s.dropped + s.queue, queue := [])
  }

  predicate Legal(s: State, run: seq<Event>)
    decreases |run|
  {
    run == [] || (Enabled(s, run[0]) && Legal(Apply(s, run[0]), run[1..]))
  }

  function Exec(s: State, run: seq<Event>): State
    requires Legal(s, run)
    decreases |run|
  {
    if run == [] then s else Exec(Apply(s, run[0]), run[1..])
  }

  // ------------------------------------------------------------- conservation

  function HandedBy(c: Call): seq<nat> {
    match c.phase
    case Done(GotConn(conn)) => [conn]
    case Done(GotStream(conn)) => [conn]
    case _ => []
  }

  function HeldAt(calls: seq<Call>, i: nat, c: nat): nat {
    if i < |calls| then Count(HeldBy(calls[i]), c) else 0
  }

  function HandedAt(calls: seq<Call>, i: nat, c: nat): nat {
    if i < |calls| then Count(HandedBy(calls[i]), c) else 0
  }

  /** How many calls hold connection c, and how many have returned it. */
  function Held(calls: seq<Call>, c: nat): nat {
    Sum((i: nat) => HeldAt(calls, i, c), |calls|)
  }

  function Handed(calls: seq<Call>, c: nat): nat {
    Sum((i: nat) => HandedAt(calls, i, c), |calls|)
  }

  predicate Conserved(s: State, c: nat) {
    && Count(s.queue, c) + Held(s.calls, c) + Count(s.delivered, c) + Count(s.dropped, c) == (if c < s.arrived then 1 else 0)
    && Handed(s.calls, c) == Count(s.delivered, c)
  }

  lemma MoveCounts(calls: seq<Call>, i: nat, call: Call, c: nat)
    requires i < |calls|
    ensures Held(calls[i := call], c) == Held(calls, c) - Count(HeldBy(calls[i]), c) + Count(HeldBy(call), c)
    ensures Handed(calls[i := call], c) == Handed(calls, c) - Count(HandedBy(calls[i]), c) + Count(HandedBy(call), c)
  {
    var after := calls[i := call];
    SumUpdate((j: nat) => HeldAt(calls, j, c), (j: nat) => HeldAt(after, j, c), |calls|, i);
    SumUpdate((j: nat) => HandedAt(calls, j, c), (j: nat) => HandedAt(after, j, c), |calls|, i);
  }

  /** A call ends by handing what it held to its caller. */
  lemma DeliverConserves(s: State, i: nat, answer: Answer, conn: nat, c: nat)
    requires Conserved(s, c) && i < |s.calls| && HeldBy(s.calls[i]) == [conn]
    requires answer == GotConn(conn) || answer == GotStream(conn)
    ensures Conserved(Move(s, i, Done(answer)).(delivered := s.delivered + [conn]), c)
  {
    MoveCounts(s.calls, i, s.calls[i].(phase := Done(answer)), c);
    CountAppend(s.delivered, [conn], c);
  }

  /** A call ends otherwise: what it held, if anything, is dropped. */
  lemma DiscardConserves(s: State, i: nat, answer: Answer, c: nat)
    requires Conserved(s, c) && i < |s.calls| && !s.calls[i].phase.Done?
    requires !answer.GotConn? && !answer.GotStream?
    ensures Conserved(Move(s, i, Done(answer)).(dropped := s.dropped + HeldBy(s.calls[i])), c)
  {
    MoveCounts(s.calls, i, s.calls[i].(phase := Done(answer)), c);
    CountAppend(s.dropped, HeldBy(s.calls[i]), c);
  }

  lemma PopConserves(s: State, i: nat, c: nat)
    requires Conserved(s, c) && Enabled(s, Pop(i))
    ensures Conserved(Apply(s, Pop(i)), c)
  {
    MoveCounts(s.calls, i, s.calls[i].(phase := Handshaking(s.queue[0])), c);
    CountAppend([s.queue[0]], s.queue[1..], c);
    assert s.queue == [s.queue[0]] + s.queue[1..];
  }

  lemma InvokeConserves(s: State, op: Op, c: nat)
    requires Conserved(s, c)
    ensures Conserved(Apply(s, Invoke(op)), c)
  {
    var t := Apply(s, Invoke(op));
    SumFrame((j: nat) => HeldAt(s.calls, j, c), (j: nat) => HeldAt(t.calls, j, c), |s.calls|);
    SumFrame((j: nat) => HandedAt(s.calls, j, c), (j: nat) => HandedAt(t.calls, j, c), |s.calls|);
  }

  lemma StepConserves(s: State, e: Event, c: nat)
    requires Conserved(s, c) && Enabled(s, e)
    ensures Conserved(Apply(s, e), c)
  {
    match e
    case Arrive => CountAppend(s.queue, [s.arrived], c);
    case Invoke(op) => InvokeConserves(s, op, c);
    case Close => CountAppend(s.dropped, s.queue, c);
    case Pop(i) => PopConserves(s, i, c);
    case HandshakeOk(i) =>
      if s.calls[i].op.AcceptNext? {
        MoveCounts(s.calls, i, Apply(s, e).calls[i], c);
      } else {
        DeliverConserves(s, i, GotConn(s.calls[i].phase.conn), s.calls[i].phase.conn, c);
      }
    case StreamOk(i) => DeliverConserves(s, i, GotStream(s.calls[i].phase.conn), s.calls[i].phase.conn, c);
    case HandshakeFail(i) => DiscardConserves(s, i, Failed, c);
    case StreamFail(i) => DiscardConserves(s, i, Failed, c);
    case End(i) =>
      DiscardConserves(s, i, Ended, c);
      assert s.dropped + HeldBy(s.calls[i]) == s.dropped;
    case Cancel(i) => DiscardConserves(s, i, Cancelled, c);
  }

  lemma {:induction false} RunConserves(s: State, run: seq<Event>, c: nat)
    requires Conserved(s, c) && Legal(s, run)
    ensures Conserved(Exec(s, run), c)
    decreases |run|
  {
    if run != [] {
      StepConserves(s, run[0], c);
      RunConserves(Apply(s, run[0]), run[1..], c);
    }
  }

  /** For every interleaving of callers, arrivals, failures, cancellations and shutdown, each
      connection that arrived is in exactly one place - queued, held by a call, delivered, or
      dropped - and nothing that did not arrive is anywhere. What was delivered is what callers
      were given, and no two calls hold or were given the same connection. */
  lemma EveryConnectionIsInOnePlace(run: seq<Event>, c: nat)
    requires Legal(INIT, run)
    ensures var s := Exec(INIT, run);
      && Count(s.queue, c) + Held(s.calls, c) + Count(s.delivered, c) + Count(s.dropped, c) == (if c < s.arrived then 1 else 0)
      && Handed(s.calls, c) == Count(s.delivered, c)
      && (forall i, j :: 0 <= i < j < |s.calls| ==>
            !(c in HeldBy(s.calls[i]) && c in HeldBy(s.calls[j])) && !(c in HandedBy(s.calls[i]) && c in HandedBy(s.calls[j])))
  {
    var s := Exec(INIT, run);
    RunConserves(INIT, run, c);
    var held := (i: nat) => HeldAt(s.calls, i, c);
    var handed := (i: nat) => HandedAt(s.calls, i, c);
    forall i, j | 0 <= i < j < |s.calls|
      ensures !(c in HeldBy(s.calls[i]) && c in HeldBy(s.calls[j])) && !(c in HandedBy(s.calls[i]) && c in HandedBy(s.calls[j]))
    {
      SumPair(held, |s.calls|, i, j);
      SumPair(handed, |s.calls|, i, j);
      CountMember(HeldBy(s.calls[i]), c);
      CountMember(HeldBy(s.calls[j]), c);
      CountMember(HandedBy(s.calls[i]), c);
      CountMember(HandedBy(s.calls[j]), c);
    }
  }

  ghost predicate Truthful(s: State) {
    forall c :: c in s.calls && c.phase.Done? ==>
      && (c.phase.answer.GotConn? ==> c.op.AcceptConn?)
      && (c.phase.answer.GotStream? ==> c.op.AcceptNext?)
      && (c.phase.answer.Ended? ==> s.closed)
  }

  /** None is only ever the answer of a closed endpoint; a bare connection only that of
      `accept_conn`, and one with its stream only that of `accept_next`. */
  lemma {:induction false} AnswersFitTheCall(s: State, run: seq<Event>)
    requires Legal(s, run) && Truthful(s)
    requires forall c :: c in s.calls ==> (c.phase.Accepting? ==> c.op.AcceptNext?)
    ensures Truthful(Exec(s, run)) && (s.closed ==> Exec(s, run).closed)
    decreases |run|
  {
    if run != [] {
      AnswersFitTheCall(Apply(s, run[0]), run[1..]);
    }
  }

  /** Shutdown closes every connection: from then on nothing arrives, nothing is taken from the
      queue and nothing is delivered; and every call that is not over can end, with None if it was
      waiting for a connection and with an error if it held one. */
  lemma {:induction false} NothingNewAfterClose(s: State, run: seq<Event>)
    requires s.closed && s.queue == [] && Legal(s, run)
    ensures var t := Exec(s, run);
      && t.closed && t.queue == [] && t.arrived == s.arrived && t.delivered == s.delivered
      && (forall i :: 0 <= i < |t.calls| && !t.calls[i].phase.Done? ==>
            Enabled(t, if t.calls[i].phase == Waiting then End(i) else if t.calls[i].phase.Handshaking? then HandshakeFail(i) else StreamFail(i)))
      && (forall i :: 0 <= i < |t.calls| && HandedBy(t.calls[i]) != [] ==> i < |s.calls| && t.calls[i] == s.calls[i])
    decreases |run|
  {
    if run != [] {
      NothingNewAfterClose(Apply(s, run[0]), run[1..]);
    }
  }

  lemma CloseEmptiesTheQueue(s: State, run: seq<Event>)
    requires Legal(Apply(s, Close), run)
    ensures Exec(Apply(s, Close), run).closed && Exec(Apply(s, Close), run).queue == []
    ensures Exec(Apply(s, Close), run).arrived == s.arrived && Exec(Apply(s, Close), run).delivered == s.delivered
  {
    NothingNewAfterClose(Apply(s, Close), run);
  }

  // ------------------------------------------------------------ delivery order

  predicate Idle(s: State) {
    forall c :: c in s.calls ==> c.phase.Done?
  }

  /** One loop: the next call is made only when the last one is over. */
  predicate Sequential(s: State, run: seq<Event>)
    requires Legal(s, run)
    decreases |run|
  {
    run == [] || ((run[0].Invoke? ==> Idle(s)) && Sequential(Apply(s, run[0]), run[1..]))
  }

  /** The connections a loop has dealt with, is dealing with and will deal with, in that order. */
  function Line(s: State): seq<nat> {
    s.delivered + (if s.calls == [] then [] else HeldBy(Last(s.calls))) + s.queue
  }

  ghost predicate InOrder(s: State) {
    && (forall i :: 0 <= i < |s.calls| - 1 ==> s.calls[i].phase.Done?)
    && Ascending(Line(s))
    && (forall c :: c in Line(s) ==> c < s.arrived)
  }

  lemma ArriveInOrder(s: State)
    requires InOrder(s) && !s.closed
    ensures InOrder(Apply(s, Arrive))
  {
    var t := Apply(s, Arrive);
    assert Line(t) == Line(s) + [s.arrived];
    forall i, j | 0 <= i < j < |Line(t)|
      ensures Line(t)[i] < Line(t)[j]
    {
      assert Line(s)[i] in Line(s);
    }
  }

  lemma SameLine(s: State, t: State)
    requires InOrder(s) && Line(t) == Line(s) && t.arrived == s.arrived && |t.calls| == |s.calls|
    requires forall i :: 0 <= i < |s.calls| - 1 ==> t.calls[i] == s.calls[i]
    ensures InOrder(t)
  {
  }

  /** A call moves on; being active it is the last one, so the line does not change. */
  lemma AdvanceInOrder(s: State, e: Event)
    requires InOrder(s) && Enabled(s, e) && (e.Pop? || e.HandshakeOk? || e.StreamOk? || e.End?)
    ensures InOrder(Apply(s, e))
  {
    var t := Apply(s, e);
    assert e.call == |s.calls| - 1;
    assert Line(t) == Line(s);
    SameLine(s, t);
  }

  lemma CloseInOrder(s: State)
    requires InOrder(s)
    ensures InOrder(Apply(s, Close))
  {
    var t := Apply(s, Close);
    assert Line(t) == Line(s)[..|Line(s)| - |s.queue|];
    assert forall c :: c in Line(t) ==> c in Line(s);
  }

  lemma StepInOrder(s: State, e: Event)
    requires InOrder(s) && Enabled(s, e) && (e.Invoke? ==> Idle(s))
    ensures InOrder(Apply(s, e))
  {
    var t := Apply(s, e);
    match e
    case Arrive => ArriveInOrder(s);
    case Invoke(op) =>
      assert s.calls != [] ==> Last(s.calls) in s.calls;
      assert Line(t) == Line(s);
    case Close => CloseInOrder(s);
    case HandshakeFail(i) => DropHeld(s, t);
    case StreamFail(i) => DropHeld(s, t);
    case Cancel(i) => DropHeld(s, t);
    case _ => AdvanceInOrder(s, e);
  }

  lemma DropHeld(s: State, t: State)
    requires InOrder(s) && s.calls != [] && |t.calls| == |s.calls| && Last(t.calls).phase.Done?
    requires t.arrived == s.arrived && t.queue == s.queue && t.delivered == s.delivered
    requires forall i :: 0 <= i < |s.calls| - 1 ==> t.calls[i] == s.calls[i]
    ensures InOrder(t)
  {
    var d := |s.delivered|;
    var h := |HeldBy(Last(s.calls))|;
    assert Line(t) == s.delivered + s.queue;
    forall i, j | 0 <= i < j < |Line(t)|
      ensures Line(t)[i] < Line(t)[j]
    {
      assert Line(t)[i] == Line(s)[if i < d then i else i + h];
      assert Line(t)[j] == Line(s)[if j < d then j else j + h];
    }
    assert forall c :: c in Line(t) ==> c in Line(s);
  }

  lemma {:induction false} RunInOrder(s: State, run: seq<Event>)
    requires InOrder(s) && Legal(s, run) && Sequential(s, run)
    ensures InOrder(Exec(s, run))
    decreases |run|
  {
    if run != [] {
      StepInOrder(s, run[0]);
      RunInOrder(Apply(s, run[0]), run[1..]);
    }
  }

  /** A single loop over either call delivers connections in the order they arrived, skipping
      those whose handshake or stream failed. */
  lemma OneLoopDeliversInArrivalOrder(run: seq<Event>)
    requires Legal(INIT, run) && Sequential(INIT, run)
    ensures Ascending(Exec(INIT, run).delivered)
    ensures forall c :: c in Exec(INIT, run).delivered ==> c < Exec(INIT, run).arrived
  {
    var s := Exec(INIT, run);
    RunInOrder(INIT, run);
    assert forall i :: 0 <= i < |s.delivered| ==> s.delivered[i] == Line(s)[i];
    assert forall c :: c in s.delivered ==> c in Line(s);
  }

  lemma {:induction false} LegalAppend(s: State, first: seq<Event>, second: seq<Event>)
    requires Legal(s, first) && Legal(Exec(s, first), second)
    ensures Legal(s, first + second) && Exec(s, first + second) == Exec(Exec(s, first), second)
    decreases |first|
  {
    if first == [] {
      assert first + second == second;
    } else {
      assert (first + second)[1..] == first[1..] + second;
      LegalAppend(Apply(s, first[0]), first[1..], second);
    }
  }

  lemma Two(s: State, e: Event, f: Event)
    requires Enabled(s, e) && Enabled(Apply(s, e), f)
    ensures Legal(s, [e, f]) && Exec(s, [e, f]) == Apply(Apply(s, e), f)
  {
    assert [e, f] == [e] + [f];
    LegalAppend(s, [e], [f]);
  }

  lemma TwoTakeTwo(s: State) returns (run: seq<Event>)
    requires s == State(2, [0, 1], false, [Call(AcceptConn, Waiting), Call(AcceptConn, Waiting)], [], [])
    ensures Legal(s, run) && Exec(s, run).delivered == [1, 0]
  {
    var held := State(2, [], false, [Call(AcceptConn, Handshaking(0)), Call(AcceptConn, Handshaking(1))], [], []);
    Two(s, Pop(0), Pop(1));
    assert Exec(s, [Pop(0), Pop(1)]) == held;
    Two(held, HandshakeOk(1), HandshakeOk(0));
    LegalAppend(s, [Pop(0), Pop(1)], [HandshakeOk(1), HandshakeOk(0)]);
    run := [Pop(0), Pop(1)] + [HandshakeOk(1), HandshakeOk(0)];
  }

  /** With two callers at once the order is lost: the later arrival can be delivered first. */
  lemma TwoCallersMayDeliverOutOfOrder() returns (run: seq<Event>)
    ensures Legal(INIT, run) && Exec(INIT, run).delivered == [1, 0]
  {
    var s2 := State(2, [0, 1], false, [], [], []);
    var s4 := s2.(calls := [Call(AcceptConn, Waiting), Call(AcceptConn, Waiting)]);
    Two(INIT, Arrive, Arrive);
    assert Exec(INIT, [Arrive, Arrive]) == s2;
    Two(s2, Invoke(AcceptConn), Invoke(AcceptConn));
    assert Exec(s2, [Invoke(AcceptConn), Invoke(AcceptConn)]) == s4;
    var rest := TwoTakeTwo(s4);
    LegalAppend(s2, [Invoke(AcceptConn), Invoke(AcceptConn)], rest);
    LegalAppend(INIT, [Arrive, Arrive], [Invoke(AcceptConn), Invoke(AcceptConn)] + rest);
    run := [Arrive, Arrive] + ([Invoke(AcceptConn), Invoke(AcceptConn)] + rest);
  }
}
