/** The connecting and accepting calls as their callers see them: straight-line code with up to three
    awaits, at each of which everything else may happen and the call may be dropped - unless its
    caller is `keen`, and never drops it. Each method is one run of the transition system. */
module EndpointObject {
  import opened Prelude
  import opened Handles
  import opened HandleSafety
  import HandleAnswers

  lemma {:induction false} OthersRun(s: State, i: nat, run: seq<Event>)
    requires Inv(s) && Legal(s, run) && i < |s.calls| && forall e :: e in run ==> !Own(e, i)
    ensures Inv(Exec(s, run)) && i < |Exec(s, run).calls| && Exec(s, run).calls[i] == s.calls[i]
    ensures |s.refs| <= |Exec(s, run).refs| && (s.down ==> Exec(s, run).down)
    decreases |run|
  {
    if run != [] {
      assert run[0] in run && forall e :: e in run[1..] ==> e in run;
      StepKeepsInv(s, run[0]);
      OthersKeepCall(s, i, run[0]);
      OthersRun(Apply(s, run[0]), i, run[1..]);
    }
  }

  class Endpoint {
    var state: State

    ghost predicate Valid()
      reads this
    {
      Inv(state)
    }

    /** The endpoint has come from `from` by the events of `run`. */
    ghost predicate After(from: State, run: seq<Event>)
      reads this
    {
      Inv(state) && Legal(from, run) && state == Exec(from, run)
    }

    constructor ()
      ensures Valid() && state == EMPTY
    {
      state := EMPTY;
    }

    method Take(ghost from: State, ghost past: seq<Event>, e: Event) returns (ghost run: seq<Event>)
      requires After(from, past) && Enabled(state, e)
      modifies this
      ensures After(from, run) && state == Apply(old(state), e)
    {
      StepKeepsInv(state, e);
      LegalAppend(from, past, [e]);
      run := past + [e];
      state := Apply(state, e);
    }

    /** While call i waits: any number of events that are not its own. */
    method Await(ghost from: State, ghost past: seq<Event>, i: nat) returns (ghost meanwhile: seq<Event>, ghost run: seq<Event>)
      requires After(from, past) && i < |state.calls|
      modifies this
      ensures Legal(old(state), meanwhile) && state == Exec(old(state), meanwhile)
      ensures After(from, run) && i < |state.calls| && state.calls[i] == old(state).calls[i]
      ensures |old(state).refs| <= |state.refs| && (old(state).down ==> state.down)
    {
      assert Legal(state, []);
      var others: seq<Event> :| Legal(state, others) && forall e :: e in others ==> !Own(e, i);
      OthersRun(state, i, others);
      LegalAppend(from, past, others);
      meanwhile := others;
      run := past + others;
      state := Exec(state, others);
    }

    /** The stream is there: it gets its handle, and the connection object goes out of scope. */
    method ReturnStream(ghost from: State, ghost past: seq<Event>, i: nat, ghost c: nat) returns (stream: nat, ghost run: seq<Event>)
      requires After(from, past) && Followed(state, i, c) && Enabled(state, Streamed(i)) && state.objs[state.calls[i].phase.obj].conn == c
      modifies this
      ensures After(from, run) && i < |state.calls| && state.calls[i] == old(state).calls[i].(phase := Done(GotStream(stream)))
      ensures Followed(state, i, c) && stream in state.objs && Connected(state, c)
    {
      stream := state.nextObj;
      FollowedByCall(state, i, c, Streamed(i));
      run := Take(from, past, Streamed(i));
      HeldFacts(state, i);
      AllLive(state, state.calls[i].phase.obj);
      assert CallInv(state, i);
      FollowedByCall(state, i, c, Return(i));
      run := Take(from, run, Return(i));
      AllLive(state, stream);
    }

    /** `conn.open_bi().await` or `conn.accept_bi().await`, and the end of the enclosing call. The
        library says whether it `streams`; it cannot once the connection is shut down. */
    method StreamOn(ghost from: State, ghost past: seq<Event>, i: nat, ghost c: nat, streams: bool, keen: bool)
      returns (answer: Answer, ghost run: seq<Event>)
      requires After(from, past) && Followed(state, i, c) && state.calls[i].phase.Opening?
      modifies this
      ensures After(from, run) && i < |state.calls| && state.calls[i] == old(state).calls[i].(phase := Done(answer)) && Locals(state, i) == {}
      ensures (answer == Failed && c < |state.refs| && (!streams || ShutDown(state, c))) || (answer == Cancelled && !keen) || answer.GotStream?
      ensures answer.GotStream? ==> streams && answer.obj in state.objs && Followed(state, i, c) && Connected(state, c)
    {
      ghost var others;
      others, run := Await(from, past, i);
      FollowRun(old(state), i, c, others);
      var o := state.calls[i].phase.obj;
      AllLive(state, o);
      var dropped: bool :| dropped ==> !keen;
      if dropped {
        answer := Cancelled;
        run := Take(from, run, Cancel(i));
      } else if streams && !ShutDown(state, state.objs[o].conn) {
        var stream: nat;
        stream, run := ReturnStream(from, run, i, c);
        answer := GotStream(stream);
      } else {
        answer := Failed;
        run := Take(from, run, Fail(i));
      }
      assert CallInv(state, i);
    }

    /** The handshake of call i: the library says whether it `dials`, or shakes hands with what came
        in; it cannot once the endpoint is shut down. `over` is the answer if that ends the call. */
    method Handshake(ghost from: State, ghost past: seq<Event>, i: nat, dials: bool, keen: bool)
      returns (over: Option<Answer>, ghost c: nat, ghost run: seq<Event>)
      requires After(from, past) && i < |state.calls| && state.calls[i].phase == Dialling
      requires |from.refs| <= |state.refs|
      modifies this
      ensures After(from, run) && i < |state.calls| && state.calls[i].op == old(state).calls[i].op && |from.refs| <= c
      ensures over.None? ==> Composite(state.calls[i].op) && state.calls[i].phase.Opening? && Followed(state, i, c)
      ensures over.Some? ==>
        && state.calls[i].phase == Done(over.value) && Locals(state, i) == {}
        && ((over.value == Failed && (!dials || state.down)) || (over.value == Cancelled && !keen)
            || (over.value.GotConnection? && !Composite(state.calls[i].op)))
      ensures over.Some? && over.value.GotConnection? ==>
        && over.value.obj in state.objs && state.objs[over.value.obj] == Obj(ConnectionObject, c, None)
        && Owners(state, c) == {over.value.obj} && Connected(state, c)
    {
      ghost var meanwhile;
      meanwhile, run := Await(from, past, i);
      c := |state.refs|;
      var dropped: bool :| dropped ==> !keen;
      if dropped {
        run := Take(from, run, Cancel(i));
        over := Some(Cancelled);
      } else if !dials || state.down {
        run := Take(from, run, Fail(i));
        over := Some(Failed);
      } else if Composite(state.calls[i].op) {
        run := Take(from, run, Establish(i));
        over := None;
      } else {
        HandleAnswers.FreshConnection(state, i);
        over := Some(GotConnection(state.nextObj));
        run := Take(from, run, Establish(i));
      }
      assert CallInv(state, i);
    }

    /** Waiting in `Endpoint::accept`: `over` is None when something came in. */
    method AwaitIncoming(ghost from: State, ghost past: seq<Event>, i: nat, keen: bool) returns (over: Option<Answer>, ghost run: seq<Event>)
      requires After(from, past) && i < |state.calls| && state.calls[i].phase == Waiting
      modifies this
      ensures After(from, run) && i < |state.calls| && state.calls[i].op == old(state).calls[i].op
      ensures |old(state).refs| <= |state.refs| && (old(state).down ==> over.Some?)
      ensures over.None? ==> state.calls[i].phase == Dialling
      ensures over.Some? ==>
        && state.calls[i].phase == Done(over.value) && Locals(state, i) == {}
        && ((over.value == Ended && state.down) || (over.value == Cancelled && !keen))
    {
      ghost var meanwhile;
      meanwhile, run := Await(from, past, i);
      var dropped: bool :| dropped ==> !keen;
      if dropped {
        run := Take(from, run, Cancel(i));
        over := Some(Cancelled);
      } else if state.down {
        run := Take(from, run, End(i));
        over := Some(Ended);
      } else {
        run := Take(from, run, Incoming(i));
        over := None;
      }
      assert CallInv(state, i);
    }

    /** Call i, of the given operation, is over with the given answer, for the reasons its events
        give, and has nothing left in hand. */
    ghost predicate Finished(i: nat, op: Op, answer: Answer, run: seq<Event>)
      reads this
    {
      && i < |state.calls| && state.calls[i] == Call(op, Done(answer)) && Locals(state, i) == {}
      && (answer == Cancelled <==> Cancel(i) in run)
      && (answer == Failed <==> Fail(i) in run)
      && (answer == Ended <==> End(i) in run)
    }

    /** The caller has the one handle of an open connection made during the call. */
    ghost predicate HoldsNew(from: State, obj: nat, kind: Kind)
      reads this
    {
      && obj in state.objs && state.objs[obj].kind == kind && state.objs[obj].local == None
      && |from.refs| <= state.objs[obj].conn
      && Owners(state, state.objs[obj].conn) == {obj} && Connected(state, state.objs[obj].conn)
    }

    /** A connection made since `from` has been shut down, or the whole endpoint. */
    ghost predicate NewOneShut(from: State)
      reads this
    {
      exists c :: |from.refs| <= c < |state.refs| && ShutDown(state, c)
    }

    /** `connect_conn` (and `connect_addr`, `connect_by_id`): on success a new object with the only
        handle of a new, open connection. It fails only if the dial does or the endpoint is down. */
    method ConnectConn(dials: bool, keen: bool) returns (answer: Answer, ghost run: seq<Event>)
      requires Valid()
      modifies this
      ensures After(old(state), run) && Finished(|old(state).calls|, Op.ConnectConn, answer, run)
      ensures answer.GotConnection? || (answer == Failed && (!dials || state.down)) || (answer == Cancelled && !keen)
      ensures answer.GotConnection? ==> HoldsNew(old(state), answer.obj, ConnectionObject)
    {
      var i := |state.calls|;
      run := Take(state, [], Invoke(Op.ConnectConn));
      var over: Option<Answer>;
      ghost var c: nat;
      over, c, run := Handshake(old(state), run, i, dials, keen);
      HandleAnswers.AnswersComeFromEvents(old(state), run, i);
      answer := over.value;
    }

    /** `connect`: dial, open a stream, and let the connection object go on the way out. On success
        the stream is on a connection made by this call, has its only handle, and the connection is
        open. It fails only if the dial or the stream does, or what it made or the endpoint is shut
        down; it leaves nothing behind then. */
    method Connect(dials: bool, streams: bool, keen: bool) returns (answer: Answer, ghost run: seq<Event>)
      requires Valid()
      modifies this
      ensures After(old(state), run) && Finished(|old(state).calls|, Op.Connect, answer, run)
      ensures
        || answer.GotStream?
        || (answer == Failed && (!dials || !streams || state.down || NewOneShut(old(state))))
        || (answer == Cancelled && !keen)
      ensures answer.GotStream? ==> HoldsNew(old(state), answer.obj, BiStream)
    {
      var i := |state.calls|;
      run := Take(state, [], Invoke(Op.Connect));
      var over: Option<Answer>;
      ghost var c: nat;
      over, c, run := Handshake(old(state), run, i, dials, keen);
      if over.Some? {
        answer := over.value;
      } else {
        answer, run := StreamOn(old(state), run, i, c, streams, keen);
      }
      HandleAnswers.AnswersComeFromEvents(old(state), run, i);
    }

    /** `accept_conn`: None only from an endpoint that is closed, always from one that was closed
        before the call; otherwise as `connect_conn`. */
    method AcceptConn(dials: bool, keen: bool) returns (answer: Answer, ghost run: seq<Event>)
      requires Valid()
      modifies this
      ensures After(old(state), run) && Finished(|old(state).calls|, Op.AcceptConn, answer, run)
      ensures
        || answer.GotConnection?
        || (answer == Ended && state.down)
        || (answer == Failed && (!dials || state.down))
        || (answer == Cancelled && !keen)
      ensures old(state).down ==> answer == Ended || answer == Cancelled
      ensures answer.GotConnection? ==> HoldsNew(old(state), answer.obj, ConnectionObject)
    {
      var i := |state.calls|;
      run := Take(state, [], Invoke(Op.AcceptConn));
      var over: Option<Answer>;
      over, run := AwaitIncoming(old(state), run, i, keen);
      if over.None? {
        ghost var c: nat;
        over, c, run := Handshake(old(state), run, i, dials, keen);
      }
      HandleAnswers.AnswersComeFromEvents(old(state), run, i);
      answer := over.value;
    }

    /** `accept_next` over `accept_conn`: None only from an endpoint that is closed, always from
        one that was closed before the call; otherwise as `connect`. */
    method AcceptNext(dials: bool, streams: bool, keen: bool) returns (answer: Answer, ghost run: seq<Event>)
      requires Valid()
      modifies this
      ensures After(old(state), run) && Finished(|old(state).calls|, Op.AcceptNext, answer, run)
      ensures
        || answer.GotStream?
        || (answer == Ended && state.down)
        || (answer == Failed && (!dials || !streams || state.down || NewOneShut(old(state))))
        || (answer == Cancelled && !keen)
      ensures old(state).down ==> answer == Ended || answer == Cancelled
      ensures answer.GotStream? ==> HoldsNew(old(state), answer.obj, BiStream)
    {
      var i := |state.calls|;
      run := Take(state, [], Invoke(Op.AcceptNext));
      var over: Option<Answer>;
      over, run := AwaitIncoming(old(state), run, i, keen);
      ghost var c: nat;
      if over.None? {
        over, c, run := Handshake(old(state), run, i, dials, keen);
      }
      if over.Some? {
        answer := over.value;
      } else {
        answer, run := StreamOn(old(state), run, i, c, streams, keen);
      }
      HandleAnswers.AnswersComeFromEvents(old(state), run, i);
    }
  }
}
