/** What every interleaving of calls, drops and shutdowns keeps of connections and their handles. */
module HandleSafety {
  import opened Prelude
  import opened Handles

  /** In every reachable state the library's handle count of a connection is the number of its
      live connection objects and streams; it is closed for want of handles exactly when none is
      left; and every object the application has can be dropped. */
  lemma HandlesEqualLiveObjects(run: seq<Event>)
    requires Legal(EMPTY, run)
    ensures var s := Exec(EMPTY, run);
      && (forall c :: 0 <= c < |s.refs| ==> s.refs[c] == |Owners(s, c)|)
      && (forall c :: 0 <= c < |s.refs| ==> (Connected(s, c) <==> Owners(s, c) != {} && !ShutDown(s, c)))
      && (forall o :: o in s.objs && s.objs[o].local.None? ==> Enabled(s, Drop(o)))
  {
    var s := Exec(EMPTY, run);
    RunKeepsInv(EMPTY, run);
    forall o | o in s.objs
      ensures Live(s, o)
    {
      AllLive(s, o);
    }
  }

  /** Nothing leaks, however calls interleave and wherever they are cancelled: an object is either
      the application's or in the variables of a call still under way, and a call that is over -
      failed and cancelled ones included - holds nothing. A call that waits can always be
      cancelled, and one that has its stream always returns it. */
  lemma NothingLeaks(run: seq<Event>)
    requires Legal(EMPTY, run)
    ensures var s := Exec(EMPTY, run);
      && (forall o :: o in s.objs && s.objs[o].local.Some? ==>
            s.objs[o].local.value < |s.calls| && !s.calls[s.objs[o].local.value].phase.Done?)
      && (forall i :: 0 <= i < |s.calls| && s.calls[i].phase.Done? ==> Locals(s, i) == {})
      && (forall i :: 0 <= i < |s.calls| && !s.calls[i].phase.Done? ==> Enabled(s, Cancel(i)) || Enabled(s, Return(i)))
  {
    var s := Exec(EMPTY, run);
    RunKeepsInv(EMPTY, run);
    forall i | 0 <= i < |s.calls|
      ensures s.calls[i].phase.Done? ==> Locals(s, i) == {}
      ensures !s.calls[i].phase.Done? ==> Enabled(s, Cancel(i)) || Enabled(s, Return(i))
    {
      assert CallInv(s, i);
      HeldFacts(s, i);
      forall o | o in HeldBy(s.calls[i])
        ensures Live(s, o)
      {
        AllLive(s, o);
      }
    }
    forall o | o in s.objs && s.objs[o].local.Some?
      ensures s.objs[o].local.value < |s.calls| && !s.calls[s.objs[o].local.value].phase.Done?
    {
      assert o in Locals(s, s.objs[o].local.value);
    }
  }

  /** A connection made inside `connect` or `accept_next` call i, followed through the call and
      after it: the call alone has its handles, then the returned stream alone, then nobody. */
  ghost predicate Followed(s: State, i: nat, c: nat) {
    && i < |s.calls| && c < |s.refs|
    && match s.calls[i].phase
       case Opening(o) => o in s.objs && s.objs[o].conn == c
       case Returning(o, _) => o in s.objs && s.objs[o].conn == c
       case Done(GotStream(x)) =>
         && x < s.nextObj && Owners(s, c) == (if x in s.objs then {x} else {})
         && (x in s.objs ==> s.objs[x] == Obj(BiStream, c, None))
       case Done(Failed) => Owners(s, c) == {}
       case Done(Cancelled) => Owners(s, c) == {}
       case _ => false
  }

  /** The call an event moves. */
  function CallOf(e: Event): Option<nat> {
    match e
    case Incoming(i) => Some(i)
    case End(i) => Some(i)
    case Establish(i) => Some(i)
    case Streamed(i) => Some(i)
    case Return(i) => Some(i)
    case Fail(i) => Some(i)
    case Cancel(i) => Some(i)
    case _ => None
  }

  predicate Own(e: Event, i: nat) {
    CallOf(e) == Some(i)
  }

  lemma FollowedByCall(s: State, i: nat, c: nat, e: Event)
    requires Inv(s) && Followed(s, i, c) && Enabled(s, e) && Own(e, i)
    ensures Followed(Apply(s, e), i, c)
  {
    assert CallInv(s, i);
    HeldFacts(s, i);
    if e.Return? {
      ReturnOwners(s, i);
    } else if e.Fail? || e.Cancel? {
      GiveUpOwners(s, i, if e.Fail? then Failed else Cancelled);
    }
  }

  lemma GiveUpOwners(s: State, i: nat, answer: Answer)
    requires Inv(s) && At(s, i, (p: Phase) => p.Opening? && Live(s, p.obj))
    ensures Owners(GiveUp(s, i, answer), s.objs[s.calls[i].phase.obj].conn) == {}
  {
    var o := s.calls[i].phase.obj;
    assert CallInv(s, i);
    ReleaseCounts(s, o);
    assert Owners(GiveUp(s, i, answer), s.objs[o].conn) == Owners(Release(s, o), s.objs[o].conn);
  }

  /** The objects of connection c are call i's own, or streams of the application's. */
  ghost predicate Guarded(s: State, i: nat, c: nat) {
    forall o :: o in Owners(s, c) ==> s.objs[o].local == Some(i) || (s.objs[o].local == None && s.objs[o].kind == BiStream)
  }

  /** What another call does leaves them as they are. */
  lemma OtherCallOwners(s: State, e: Event, i: nat, j: nat, c: nat)
    requires Inv(s) && Enabled(s, e) && Own(e, j) && i != j && c < |s.refs| && Guarded(s, i, c)
    ensures Owners(Apply(s, e), c) == Owners(s, c)
    ensures forall o :: o in Owners(s, c) ==> Apply(s, e).objs[o] == s.objs[o]
  {
    HeldFacts(s, j);
    forall o | o in HeldBy(s.calls[j])
      ensures s.objs[o].conn != c
    {
      OthersConnection(s, c, o, i);
    }
  }

  /** So does a new stream the application opens, on a connection it has itself. */
  lemma OpenOwners(s: State, o: nat, kind: Kind, i: nat, c: nat)
    requires Inv(s) && Enabled(s, Open(o, kind)) && c < |s.refs| && Guarded(s, i, c)
    ensures Owners(Apply(s, Open(o, kind)), c) == Owners(s, c)
    ensures forall x :: x in Owners(s, c) ==> Apply(s, Open(o, kind)).objs[x] == s.objs[x]
  {
    OthersConnection(s, c, o, i);
    AddCounts(s, Obj(kind, s.objs[o].conn, None));
  }

  lemma DropOwners(s: State, o: nat, c: nat)
    requires Inv(s) && Enabled(s, Drop(o))
    ensures Owners(Apply(s, Drop(o)), c) == Owners(s, c) - {o}
    ensures forall x :: x in Owners(s, c) && x != o ==> x in Apply(s, Drop(o)).objs && Apply(s, Drop(o)).objs[x] == s.objs[x]
  {
  }

  lemma OthersConnection(s: State, c: nat, o: nat, i: nat)
    requires o in s.objs && s.objs[o].local != Some(i) && (s.objs[o].local.Some? || s.objs[o].kind == ConnectionObject)
    requires Guarded(s, i, c)
    ensures s.objs[o].conn != c
  {
    assert s.objs[o].conn == c ==> o in Owners(s, c);
  }

  /** The objects of a followed connection are the call's own, or its stream. */
  lemma FollowedOwners(s: State, i: nat, c: nat)
    requires Inv(s) && Followed(s, i, c)
    ensures Guarded(s, i, c)
  {
    assert CallInv(s, i);
    HeldFacts(s, i);
  }

  lemma OthersKeepCall(s: State, i: nat, e: Event)
    requires i < |s.calls| && Enabled(s, e) && !Own(e, i)
    ensures i < |Apply(s, e).calls| && Apply(s, e).calls[i] == s.calls[i]
    ensures |s.refs| <= |Apply(s, e).refs| && (s.down ==> Apply(s, e).down)
  {
  }

  /** Object numbers are never used twice. */
  lemma GoneStaysGone(s: State, e: Event)
    requires Inv(s) && Enabled(s, e)
    ensures s.nextObj <= Apply(s, e).nextObj
    ensures forall o :: o < s.nextObj && o !in s.objs ==> o !in Apply(s, e).objs
  {
    if e.Return? {
      HeldFacts(s, e.call);
    }
  }

  lemma FollowedByOthers(s: State, i: nat, c: nat, e: Event)
    requires Inv(s) && Followed(s, i, c) && Enabled(s, e) && !Own(e, i)
    ensures Followed(Apply(s, e), i, c)
  {
    OthersKeepCall(s, i, e);
    GoneStaysGone(s, e);
    FollowedOwners(s, i, c);
    if CallOf(e).Some? {
      OtherCallOwners(s, e, i, CallOf(e).value, c);
      FollowedAfter(s, Apply(s, e), i, c, {});
    } else if e.Drop? {
      DropOwners(s, e.obj, c);
      FollowedAfter(s, Apply(s, e), i, c, {e.obj});
    } else {
      if e.Open? {
        OpenOwners(s, e.obj, e.kind, i, c);
      } else {
        assert Apply(s, e).objs == s.objs;
      }
      FollowedAfter(s, Apply(s, e), i, c, {});
    }
  }

  /** What being followed needs to carry over to a later state. */
  lemma FollowedAfter(s: State, t: State, i: nat, c: nat, gone: set<nat>)
    requires Inv(s) && Followed(s, i, c) && i < |t.calls| && t.calls[i] == s.calls[i] && |s.refs| <= |t.refs|
    requires s.nextObj <= t.nextObj && forall o :: o < s.nextObj && o !in s.objs ==> o !in t.objs
    requires Owners(t, c) == Owners(s, c) - gone && forall o :: o in gone ==> o in s.objs && s.objs[o].local == None
    requires forall o :: o in gone ==> o !in t.objs
    requires forall o :: o in Owners(s, c) && o !in gone ==> o in t.objs && t.objs[o] == s.objs[o]
    ensures Followed(t, i, c)
  {
    assert CallInv(s, i);
    HeldFacts(s, i);
  }

  /** Nobody but the endpoint's user shutting everything down, or the other side, can close it:
      no connection object of it is ever in the application's hands. */
  lemma FollowedStaysOpen(s: State, i: nat, c: nat, e: Event)
    requires Inv(s) && Followed(s, i, c) && Enabled(s, e) && !ShutDown(s, c)
    requires e != ShutdownAll && e != PeerClose(c)
    ensures !ShutDown(Apply(s, e), c)
  {
    FollowedOwners(s, i, c);
    assert e.Shutdown? ==> e.obj in Owners(s, s.objs[e.obj].conn);
  }

  lemma {:induction false} FollowRun(s: State, i: nat, c: nat, run: seq<Event>)
    requires Inv(s) && Followed(s, i, c) && Legal(s, run)
    ensures Inv(Exec(s, run)) && Followed(Exec(s, run), i, c)
    ensures !ShutDown(s, c) && ShutdownAll !in run && PeerClose(c) !in run ==> !ShutDown(Exec(s, run), c)
    decreases |run|
  {
    if run != [] {
      var e := run[0];
      if Own(e, i) {
        FollowedByCall(s, i, c, e);
      } else {
        FollowedByOthers(s, i, c, e);
      }
      assert e in run && forall x :: x in run[1..] ==> x in run;
      if !ShutDown(s, c) && ShutdownAll !in run && PeerClose(c) !in run {
        FollowedStaysOpen(s, i, c, e);
      }
      StepKeepsInv(s, e);
      FollowRun(Apply(s, e), i, c, run[1..]);
    }
  }

  /** What `connect` and `accept_next` promise. From the moment the connection is made, over every
      run: once the call has returned its stream, that stream has the connection's only handle, and
      the connection is open exactly while the stream lives - unless the endpoint is shut down,
      the peer closes or the network does. If the call fails or is cancelled instead, no handle is
      left and the connection is closed. */
  lemma ReturnedStreamKeepsConnectionOpen(past: seq<Event>, i: nat, run: seq<Event>)
    requires Legal(EMPTY, past) && Enabled(Exec(EMPTY, past), Establish(i)) && Composite(Exec(EMPTY, past).calls[i].op)
    requires Legal(Apply(Exec(EMPTY, past), Establish(i)), run)
    ensures var c := |Exec(EMPTY, past).refs|; var t := Exec(Apply(Exec(EMPTY, past), Establish(i)), run);
      && i < |t.calls| && c < |t.refs|
      && !t.calls[i].phase.Waiting? && !t.calls[i].phase.Dialling?
      && (t.calls[i].phase.Done? ==>
            var answer := t.calls[i].phase.answer;
            && (answer.GotStream? || answer == Failed || answer == Cancelled)
            && (answer.GotStream? && answer.obj in t.objs ==>
                  t.objs[answer.obj] == Obj(BiStream, c, None) && Owners(t, c) == {answer.obj} && t.refs[c] == 1)
            && (Connected(t, c) <==> answer.GotStream? && answer.obj in t.objs && !ShutDown(t, c))
            && (ShutdownAll !in run && PeerClose(c) !in run ==> (Connected(t, c) <==> answer.GotStream? && answer.obj in t.objs)))
  {
    var s := Exec(EMPTY, past);
    var c := |s.refs|;
    var u := Apply(s, Establish(i));
    RunKeepsInv(EMPTY, past);
    StepKeepsInv(s, Establish(i));
    FollowRun(u, i, c, run);
    var t := Exec(u, run);
    assert t.refs[c] == |Owners(t, c)|;
  }

  /** Any object of the application's keeps its connection: whatever else is opened or dropped -
      the connection object it came from included - the connection stays open until the object is
      dropped or the connection is shut down. */
  lemma {:induction false} StreamKeepsConnectionOpen(s: State, o: nat, run: seq<Event>)
    requires Inv(s) && o in s.objs && s.objs[o].local.None? && Legal(s, run) && Drop(o) !in run
    ensures var t := Exec(s, run);
      o in t.objs && t.objs[o] == s.objs[o] && (Connected(t, s.objs[o].conn) <==> !ShutDown(t, s.objs[o].conn))
    decreases |run|
  {
    if run == [] {
      AllLive(s, o);
    } else {
      StepKeepsInv(s, run[0]);
      assert run[0] in run && forall e :: e in run[1..] ==> e in run;
      SharedUntilDropped(s, o, run[0]);
      StreamKeepsConnectionOpen(Apply(s, run[0]), o, run[1..]);
    }
  }

  lemma SharedUntilDropped(s: State, o: nat, e: Event)
    requires Inv(s) && o in s.objs && s.objs[o].local.None? && Enabled(s, e) && e != Drop(o)
    ensures o in Apply(s, e).objs && Apply(s, e).objs[o] == s.objs[o]
  {
    match e
    case Return(i) => HeldFacts(s, i);
    case Fail(i) => HeldFacts(s, i);
    case Cancel(i) => HeldFacts(s, i);
    case _ =>
  }

  lemma {:induction false} ShutStaysShut(s: State, c: nat, run: seq<Event>)
    requires ShutDown(s, c) && Legal(s, run)
    ensures ShutDown(Exec(s, run), c)
    decreases |run|
  {
    if run != [] {
      ShutStaysShut(Apply(s, run[0]), c, run[1..]);
    }
  }

  /** An explicit shutdown closes the connection at once and for good, however many handles are
      left, and so does the peer or the network; shutting the endpoint down closes all of them. */
  lemma ShutdownIsFinal(s: State, e: Event, c: nat, run: seq<Event>)
    requires Enabled(s, e) && (e.ShutdownAll? || e == PeerClose(c) || (e.Shutdown? && c == s.objs[e.obj].conn)) && Legal(Apply(s, e), run)
    ensures !Connected(Exec(Apply(s, e), run), c)
    ensures Apply(s, e).refs == s.refs && Apply(s, e).objs == s.objs
  {
    ShutStaysShut(Apply(s, e), c, run);
  }
}
