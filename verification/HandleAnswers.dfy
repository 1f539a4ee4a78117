/** What the callers of the four connecting and accepting calls are given, read off the events of a
    run, and what that is worth to them afterwards. */
module HandleAnswers {
  import opened Prelude
  import opened Handles
  import opened HandleSafety

  predicate Answered(s: State, i: nat, answer: Answer) {
    i < |s.calls| && s.calls[i].phase == Done(answer)
  }

  predicate GivenConnection(s: State, i: nat) {
    i < |s.calls| && s.calls[i].phase.Done? && s.calls[i].phase.answer.GotConnection?
  }

  predicate GivenStream(s: State, i: nat) {
    i < |s.calls| && s.calls[i].phase.Done? && s.calls[i].phase.answer.GotStream?
  }

  /** Call i is one of those that return the connection itself. */
  predicate Plain(s: State, i: nat) {
    i < |s.calls| && (s.calls[i].op == ConnectConn || s.calls[i].op == AcceptConn)
  }

  lemma StepAnswers(s: State, e: Event, i: nat)
    requires Enabled(s, e)
    ensures var t := Apply(s, e);
      && (Answered(t, i, Ended) <==> Answered(s, i, Ended) || e == End(i))
      && (Answered(t, i, Failed) <==> Answered(s, i, Failed) || e == Fail(i))
      && (Answered(t, i, Cancelled) <==> Answered(s, i, Cancelled) || e == Cancel(i))
      && (GivenStream(t, i) <==> GivenStream(s, i) || e == Return(i))
      && (GivenConnection(t, i) <==> GivenConnection(s, i) || (e == Establish(i) && Plain(s, i)))
      && (i < |s.calls| ==> Plain(t, i) == Plain(s, i))
  {
    if CallOf(e) != Some(i) && i < |s.calls| {
      OthersKeepCall(s, i, e);
    }
  }

  lemma {:induction false} OpsStay(s: State, run: seq<Event>, i: nat)
    requires Legal(s, run) && i < |s.calls|
    ensures i < |Exec(s, run).calls| && Exec(s, run).calls[i].op == s.calls[i].op
    decreases |run|
  {
    if run != [] {
      OpsStay(Apply(s, run[0]), run[1..], i);
    }
  }

  /** Every answer has its event and every such event its answer: a call answers None exactly when
      it was told that the endpoint is closed, with an error exactly when a handshake or stream of
      its own failed, with a connection exactly when its handshake completed, with a stream exactly
      when it got one and returned it, and was cancelled exactly when it was dropped. */
  lemma {:induction false} AnswersComeFromEvents(s: State, run: seq<Event>, i: nat)
    requires Legal(s, run)
    ensures var t := Exec(s, run);
      && (Answered(t, i, Ended) <==> Answered(s, i, Ended) || End(i) in run)
      && (Answered(t, i, Failed) <==> Answered(s, i, Failed) || Fail(i) in run)
      && (Answered(t, i, Cancelled) <==> Answered(s, i, Cancelled) || Cancel(i) in run)
      && (GivenStream(t, i) <==> GivenStream(s, i) || Return(i) in run)
      && (GivenConnection(t, i) <==> GivenConnection(s, i) || (Establish(i) in run && Plain(t, i)))
    decreases |run|
  {
    if run != [] {
      var e := run[0];
      StepAnswers(s, e, i);
      AnswersComeFromEvents(Apply(s, e), run[1..], i);
      assert forall x :: x in run <==> x == e || x in run[1..];
      if i < |Apply(s, e).calls| {
        OpsStay(Apply(s, e), run[1..], i);
      }
    }
  }

  /** An accepting call that waits, or has been told that there is nothing more, or was dropped. */
  predicate Emptyhanded(s: State, i: nat) {
    && i < |s.calls| && (s.calls[i].op == AcceptConn || s.calls[i].op == AcceptNext)
    && (s.calls[i].phase == Waiting || s.calls[i].phase == Done(Ended) || s.calls[i].phase == Done(Cancelled))
  }

  lemma ClosedStep(s: State, e: Event, i: nat)
    requires Enabled(s, e) && s.down
    ensures var t := Apply(s, e);
      && t.down && |s.calls| <= |t.calls| && |t.refs| == |s.refs|
      && (i < |s.calls| && Emptyhanded(s, i) ==> Emptyhanded(t, i))
      && (|s.calls| <= i < |t.calls| && (t.calls[i].op == AcceptConn || t.calls[i].op == AcceptNext) ==> Emptyhanded(t, i))
      && (GivenConnection(t, i) ==> GivenConnection(s, i))
  {
    if CallOf(e) != Some(i) && i < |s.calls| {
      OthersKeepCall(s, i, e);
    }
  }

  /** On an endpoint that is shut down, over every run: an accepting call that waits - made before or
      after - can return None, and comes to no other end but being dropped; and no call is given a
      connection. */
  lemma {:induction false} ClosedEndpointAcceptsNothing(s: State, run: seq<Event>, i: nat)
    requires Legal(s, run) && s.down
    ensures var t := Exec(s, run);
      && t.down && |s.calls| <= |t.calls| && |t.refs| == |s.refs|
      && (i < |s.calls| && Emptyhanded(s, i) ==> Emptyhanded(t, i))
      && (|s.calls| <= i < |t.calls| && (t.calls[i].op == AcceptConn || t.calls[i].op == AcceptNext) ==> Emptyhanded(t, i))
      && (i < |t.calls| && t.calls[i].phase == Waiting ==> Enabled(t, End(i)))
      && (GivenConnection(t, i) ==> GivenConnection(s, i))
    decreases |run|
  {
    if run != [] {
      var u := Apply(s, run[0]);
      ClosedStep(s, run[0], i);
      ClosedEndpointAcceptsNothing(u, run[1..], i);
      if i < |u.calls| {
        OpsStay(u, run[1..], i);
      }
    }
  }

  // ------------------------------------------------------------ one object, one caller

  /** The objects a call has in hand or has given to its caller. */
  function Claims(c: Call): set<nat> {
    match c.phase
    case Done(GotConnection(x)) => {x}
    case Done(GotStream(x)) => {x}
    case _ => HeldBy(c)
  }

  ghost predicate Distinct(s: State) {
    && (forall i, x :: 0 <= i < |s.calls| && x in Claims(s.calls[i]) ==> x < s.nextObj)
    && (forall i, j :: 0 <= i < j < |s.calls| ==> Claims(s.calls[i]) !! Claims(s.calls[j]))
  }

  lemma StepClaims(s: State, e: Event, i: nat)
    requires Enabled(s, e) && i < |Apply(s, e).calls|
    ensures var before := if i < |s.calls| then Claims(s.calls[i]) else {};
      && Claims(Apply(s, e).calls[i]) <= before + (if CallOf(e) == Some(i) && s.nextObj < Apply(s, e).nextObj then {s.nextObj} else {})
      && s.nextObj <= Apply(s, e).nextObj <= s.nextObj + 1
  {
  }

  lemma StepDistinct(s: State, e: Event)
    requires Distinct(s) && Enabled(s, e)
    ensures Distinct(Apply(s, e))
  {
    var t := Apply(s, e);
    forall i | 0 <= i < |t.calls|
      ensures Claims(t.calls[i]) <= (if i < |s.calls| then Claims(s.calls[i]) else {})
        + (if CallOf(e) == Some(i) && s.nextObj < t.nextObj then {s.nextObj} else {})
    {
      StepClaims(s, e, i);
    }
    StepGrows(s, e);
  }

  lemma StepGrows(s: State, e: Event)
    requires Enabled(s, e)
    ensures s.nextObj <= Apply(s, e).nextObj && |s.calls| <= |Apply(s, e).calls|
  {
  }

  lemma {:induction false} RunDistinct(s: State, run: seq<Event>)
    requires Distinct(s) && Legal(s, run)
    ensures Distinct(Exec(s, run))
    decreases |run|
  {
    if run != [] {
      StepDistinct(s, run[0]);
      RunDistinct(Apply(s, run[0]), run[1..]);
    }
  }

  /** No two calls ever give their callers the same object, nor one the other still holds. */
  lemma NoObjectIsGivenTwice(run: seq<Event>, i: nat, j: nat)
    requires Legal(EMPTY, run) && i < |Exec(EMPTY, run).calls| && j < |Exec(EMPTY, run).calls| && i != j
    ensures var s := Exec(EMPTY, run); Claims(s.calls[i]) !! Claims(s.calls[j])
  {
    RunDistinct(EMPTY, run);
  }

  // ---------------------------------------------------- connections and streams in use

  /** An object once dropped never comes back. */
  lemma {:induction false} DroppedStaysDropped(s: State, o: nat, run: seq<Event>)
    requires Inv(s) && Legal(s, run) && o < s.nextObj && o !in s.objs
    ensures o !in Exec(s, run).objs
    decreases |run|
  {
    if run != [] {
      GoneStaysGone(s, run[0]);
      StepKeepsInv(s, run[0]);
      DroppedStaysDropped(Apply(s, run[0]), o, run[1..]);
    }
  }

  /** An object of the application's, over every run: it is there, unchanged, exactly until it is
      dropped, and while it is its connection is open unless shut down. */
  lemma {:induction false} ObjectLivesUntilDropped(s: State, o: nat, run: seq<Event>)
    requires Inv(s) && o in s.objs && s.objs[o].local.None? && Legal(s, run)
    ensures var t := Exec(s, run);
      && (o in t.objs <==> Drop(o) !in run)
      && (o in t.objs ==> t.objs[o] == s.objs[o] && (Connected(t, s.objs[o].conn) <==> !ShutDown(t, s.objs[o].conn)))
    decreases |run|
  {
    if Drop(o) !in run {
      StreamKeepsConnectionOpen(s, o, run);
    } else {
      var t := Apply(s, run[0]);
      StepKeepsInv(s, run[0]);
      if run[0] == Drop(o) {
        DroppedStaysDropped(t, o, run[1..]);
      } else {
        SharedUntilDropped(s, o, run[0]);
        assert Drop(o) in run[1..];
        ObjectLivesUntilDropped(t, o, run[1..]);
      }
    }
  }

  /** The event shuts connection c down. */
  predicate Shuts(s: State, e: Event, c: nat) {
    e == ShutdownAll || e == PeerClose(c) || (e.Shutdown? && e.obj in s.objs && s.objs[e.obj].conn == c)
  }

  predicate ShutIn(s: State, run: seq<Event>, c: nat)
    requires Legal(s, run)
    decreases |run|
  {
    run != [] && (Shuts(s, run[0], c) || ShutIn(Apply(s, run[0]), run[1..], c))
  }

  /** A connection is shut down exactly when the endpoint was, the peer or the network closed it, or
      somebody shut it down through a connection object; never by dropping, opening or cancelling. */
  lemma {:induction false} ShutDownExactlyWhen(s: State, run: seq<Event>, c: nat)
    requires Legal(s, run)
    ensures ShutDown(Exec(s, run), c) <==> ShutDown(s, c) || ShutIn(s, run, c)
    decreases |run|
  {
    if run != [] {
      ShutDownExactlyWhen(Apply(s, run[0]), run[1..], c);
    }
  }

  /** What `connect_conn` and `accept_conn` promise. From the handshake on, over every run, the call
      has answered with a connection object that did not exist before, of the connection just made,
      and at first its only handle; it is the caller's until dropped; and while it lives the
      connection is open unless somebody shuts it down. */
  lemma ReturnedConnectionStaysOpen(past: seq<Event>, i: nat, run: seq<Event>)
    requires Legal(EMPTY, past) && Enabled(Exec(EMPTY, past), Establish(i)) && !Composite(Exec(EMPTY, past).calls[i].op)
    requires Legal(Apply(Exec(EMPTY, past), Establish(i)), run)
    ensures var s := Exec(EMPTY, past); var c := |s.refs|; var u := Apply(s, Establish(i)); var t := Exec(u, run);
      && GivenConnection(t, i)
      && var x := t.calls[i].phase.answer.obj;
         && x !in s.objs && s.nextObj <= x
         && Owners(u, c) == {x} && Connected(u, c)
         && (x in t.objs <==> Drop(x) !in run)
         && (x in t.objs ==> t.objs[x] == Obj(ConnectionObject, c, None) && (Connected(t, c) <==> !ShutDown(t, c)))
  {
    var s := Exec(EMPTY, past);
    var u := Apply(s, Establish(i));
    RunKeepsInv(EMPTY, past);
    StepKeepsInv(s, Establish(i));
    StepAnswers(s, Establish(i), i);
    DoneStays(u, run, i);
    FreshConnection(s, i);
    ObjectLivesUntilDropped(u, u.calls[i].phase.answer.obj, run);
  }

  lemma FreshConnection(s: State, i: nat)
    requires Inv(s) && Enabled(s, Establish(i)) && !Composite(s.calls[i].op)
    ensures var u := Apply(s, Establish(i)); var c := |s.refs|;
      && GivenConnection(u, i)
      && var x := u.calls[i].phase.answer.obj;
         && x !in s.objs && s.nextObj <= x && x in u.objs && u.objs[x] == Obj(ConnectionObject, c, None)
         && Owners(u, c) == {x} && Connected(u, c)
  {
    var u := Apply(s, Establish(i));
    NewConnectionCounts(s, None);
    assert Owners(u, |s.refs|) == Owners(NewConnection(s, None), |s.refs|);
  }

  lemma {:induction false} DoneStays(s: State, run: seq<Event>, i: nat)
    requires Legal(s, run) && i < |s.calls| && s.calls[i].phase.Done?
    ensures i < |Exec(s, run).calls| && Exec(s, run).calls[i] == s.calls[i]
    decreases |run|
  {
    if run != [] {
      DoneStays(Apply(s, run[0]), run[1..], i);
    }
  }

  /** A stream the application opens on a connection object: a new object of the kind asked for, on
      the same connection, which it keeps open by itself - the connection object dropped or not -
      until it is dropped, unless somebody shuts the connection down. */
  lemma OpenedStreamKeepsConnectionOpen(past: seq<Event>, o: nat, kind: Kind, run: seq<Event>) returns (x: nat)
    requires Legal(EMPTY, past) && Enabled(Exec(EMPTY, past), Open(o, kind))
    requires Legal(Apply(Exec(EMPTY, past), Open(o, kind)), run)
    ensures var s := Exec(EMPTY, past); var c := s.objs[o].conn; var u := Apply(s, Open(o, kind)); var t := Exec(u, run);
      && x !in s.objs && Owners(u, c) == Owners(s, c) + {x} && Connected(u, c)
      && (x in t.objs <==> Drop(x) !in run)
      && (x in t.objs ==> t.objs[x] == Obj(kind, c, None) && (Connected(t, c) <==> !ShutDown(t, c)))
  {
    var s := Exec(EMPTY, past);
    x := s.nextObj;
    RunKeepsInv(EMPTY, past);
    StepKeepsInv(s, Open(o, kind));
    AddCounts(s, Obj(kind, s.objs[o].conn, None));
    ObjectLivesUntilDropped(Apply(s, Open(o, kind)), x, run);
    ObjectLivesUntilDropped(Apply(s, Open(o, kind)), x, []);
  }
}
