/** Who keeps a connection open. Each wrapper object - a connection, a bidirectional stream, a
    send or a receive stream - owns one clone of the library's connection handle; the library
    closes the connection when the last clone is dropped. `refs` is the library's count, changed
    only where the code clones or drops a handle.

    `connect` and `accept_next` are calls with phases: they make a connection object of their own,
    wait for a stream on it, and let the connection object go as they return. Any number of calls
    run side by side and may be cancelled wherever they wait. */
module Handles {
  import opened Prelude

  datatype Kind = ConnectionObject | BiStream | SendStream | RecvStream

  /** `local` is the call in whose variables the object still is; None once the application has it. */
  datatype Obj = Obj(kind: Kind, conn: nat, local: Option<nat>)

  datatype Op = ConnectConn | Connect | AcceptConn | AcceptNext

  datatype Answer = GotConnection(obj: nat) | GotStream(obj: nat) | Ended | Failed | Cancelled

  datatype Phase =
    | Waiting                           // accept_conn, accept_next: in Endpoint::accept
    | Dialling                          // handshake under way, no handle yet
    | Opening(obj: nat)                 // connected, waiting for the stream
    | Returning(obj: nat, stream: nat)  // stream made, connection object still in scope
    | Done(answer: Answer)

  datatype Call = Call(op: Op, phase: Phase)

  /** `shut` has the connections closed explicitly, by the peer or by loss; `down` says that the
      endpoint is shut down, and with it every connection. */
  datatype State = State(calls: seq<Call>, objs: map<nat, Obj>, nextObj: nat, refs: seq<nat>, shut: set<nat>, down: bool)

  datatype Event =
    | Invoke(op: Op)
    | Incoming(call: nat)        // accept hands out an incoming connection
    | End(call: nat)             // accept reports a closed endpoint
    | Establish(call: nat)       // the handshake completes
    | Streamed(call: nat)        // open_bi or accept_bi inside the call resolves
    | Return(call: nat)          // the connection object goes out of scope
    | Fail(call: nat)
    | Cancel(call: nat)
    | Open(obj: nat, kind: Kind) // open_bi, accept_bi, open_uni, accept_uni by the application
    | Drop(obj: nat)             // the application lets an object go
    | Shutdown(obj: nat)         // an explicit close through a connection object
    | PeerClose(conn: nat)       // the peer closes, or the connection is lost
    | ShutdownAll                // the endpoint is shut down

  const EMPTY := State([], map[], 0, [], {}, false)

  predicate Composite(op: Op) {
    op.Connect? || op.AcceptNext?
  }

  predicate ShutDown(s: State, c: nat) {
    s.down || c in s.shut
  }

  /** Not closed: some handle is left and nobody shut it down. */
  predicate Connected(s: State, c: nat) {
    c < |s.refs| && s.refs[c] > 0 && !ShutDown(s, c)
  }

  /** A live object whose handle the library has counted. */
  predicate Live(s: State, o: nat) {
    o in s.objs && s.objs[o].conn < |s.refs| && s.refs[s.objs[o].conn] > 0
  }

  /** A live object in the application's hands. */
  predicate Shared(s: State, o: nat) {
    Live(s, o) && s.objs[o].local.None?
  }

  predicate At(s: State, i: nat, p: Phase -> bool) {
    i < |s.calls| && p(s.calls[i].phase)
  }

  predicate Enabled(s: State, e: Event) {
    match e
    case Invoke(op) => true
    case Incoming(i) => At(s, i, (p: Phase) => p.Waiting?) && !s.down
    case End(i) => At(s, i, (p: Phase) => p.Waiting?) && s.down
    case Establish(i) => At(s, i, (p: Phase) => p.Dialling?) && !s.down
    case Streamed(i) =>
      At(s, i, (p: Phase) => p.Opening? && Live(s, p.obj) && !ShutDown(s, s.objs[p.obj].conn))
    case Return(i) => At(s, i, (p: Phase) => p.Returning? && Live(s, p.obj) && p.stream in s.objs && p.stream != p.obj)
    case Fail(i) => At(s, i, (p: Phase) => p.Dialling? || (p.Opening? && Live(s, p.obj)))
    case Cancel(i) => At(s, i, (p: Phase) => p.Waiting? || p.Dialling? || (p.Opening? && Live(s, p.obj)))
    case Open(o, kind) =>
      Shared(s, o) && s.objs[o].kind.ConnectionObject? && !kind.ConnectionObject? && !ShutDown(s, s.objs[o].conn)
    case Drop(o) => Shared(s, o)
    case Shutdown(o) => Shared(s, o) && s.objs[o].kind.ConnectionObject?
    case PeerClose(c) => c < |s.refs|
    case ShutdownAll => true
  }

  function Move(s: State, i: nat, phase: Phase): State
    requires i < |s.calls|
  {
    s.(calls := s.calls[i := s.calls[i].(phase := phase)])
  }

  /** A new wrapper object, with its clone of the handle. */
  function Add(s: State, obj: Obj): State
    requires obj.conn < |s.refs|
  {
    s.(objs := s.objs[s.nextObj := obj], nextObj := s.nextObj + 1, refs := s.refs[obj.conn := s.refs[obj.conn] + 1])
  }

  function Release(s: State, o: nat): State
    requires Live(s, o)
  {
    var c := s.objs[o].conn;
    s.(objs := s.objs - {o}, refs := s.refs[c := s.refs[c] - 1])
  }

  function HandOver(s: State, o: nat): State
    requires o in s.objs
  {
    s.(objs := s.objs[o := s.objs[o].(local := None)])
  }

  function NewConnection(s: State, local: Option<nat>): State {
    Add(s.(refs := s.refs + [0]), Obj(ConnectionObject, |s.refs|, local))
  }

  /** A call ends without an answer; the connection object it had goes out of scope. */
  function GiveUp(s: State, i: nat, answer: Answer): State
    requires At(s, i, (p: Phase) => p.Opening? ==> Live(s, p.obj))
  {
    var p := s.calls[i].phase;
    Move(if p.Opening? then Release(s, p.obj) else s, i, Done(answer))
  }

  function Apply(s: State, e: Event): State
    requires Enabled(s, e)
  {
    match e
    case Invoke(op) =>
      s.(calls := s.calls + [Call(op, if op.AcceptConn? || op.AcceptNext? then Waiting else Dialling)])
    case Incoming(i) => Move(s, i, Dialling)
    case End(i) => Move(s, i, Done(Ended))
    case Establish(i) =>
      if Composite(s.calls[i].op) then Move(NewConnection(s, Some(i)), i, Opening(s.nextObj))
      else Move(NewConnection(s, None), i, Done(GotConnection(s.nextObj)))
    case Streamed(i) =>
      var o := s.calls[i].phase.obj;
      Move(Add(s, Obj(BiStream, s.objs[o].conn, Some(i))), i, Returning(o, s.nextObj))
    case Return(i) =>
      var p := s.calls[i].phase;
      Move(HandOver(Release(s, p.obj), p.stream), i, Done(GotStream(p.stream)))
    case Fail(i) => GiveUp(s, i, Failed)
    case Cancel(i) => GiveUp(s, i, Cancelled)
    case Open(o, kind) => Add(s, Obj(kind, s.objs[o].conn, None))
    case Drop(o) => Release(s, o)
    case Shutdown(o) => s.(shut := s.shut + {s.objs[o].conn})
    case PeerClose(c) => s.(shut := s.shut + {c})
    case ShutdownAll => s.(down := true)
  }

  predicate Legal(s: State, run: seq<Event>)
    decreases |run|
  {
    run == [] || (Enabled(s, run[0]) && Legal(Apply(s, run[0]), run[1..]))
  }

  function Exec(s: State, run: seq<Event>): State
    requires Legal(s, run)
    decreases |run|
  {
    if run == [] then s else Exec(Apply(s, run[0]), run[1..])
  }

  lemma {:induction false} LegalAppend(s: State, first: seq<Event>, second: seq<Event>)
    requires Legal(s, first) && Legal(Exec(s, first), second)
    ensures Legal(s, first + second) && Exec(s, first + second) == Exec(Exec(s, first), second)
    decreases |first|
  {
    if first == [] {
      assert first + second == second;
    } else {
      assert (first + second)[1..] == first[1..] + second;
      LegalAppend(Apply(s, first[0]), first[1..], second);
    }
  }

  // ------------------------------------------------------------- the invariant

  /** The live wrapper objects of a connection. */
  function Owners(s: State, c: nat): set<nat> {
    set o | o in s.objs && s.objs[o].conn == c
  }

  /** The objects in a call's own variables. */
  function Locals(s: State, i: nat): set<nat> {
    set o | o in s.objs && s.objs[o].local == Some(i)
  }

  function HeldBy(c: Call): set<nat> {
    match c.phase
    case Opening(o) => {o}
    case Returning(o, stream) => {o, stream}
    case _ => {}
  }

  ghost predicate Counted(s: State) {
    && (forall o :: o in s.objs ==> o < s.nextObj && s.objs[o].conn < |s.refs|)
    && (forall c :: 0 <= c < |s.refs| ==> s.refs[c] == |Owners(s, c)|)
    && (forall c :: c in s.shut ==> c < |s.refs|)
  }

  /** What call i has in hand is its own, and nobody else has a handle of that connection. */
  ghost predicate CallInv(s: State, i: nat)
    requires i < |s.calls|
  {
    && Locals(s, i) == HeldBy(s.calls[i])
    && match s.calls[i].phase
       case Opening(o) =>
         && Composite(s.calls[i].op) && s.objs[o].kind == ConnectionObject
         && Owners(s, s.objs[o].conn) == {o}
       case Returning(o, stream) =>
         && Composite(s.calls[i].op) && o != stream && s.objs[o].kind == ConnectionObject && s.objs[stream].kind == BiStream
         && s.objs[stream].conn == s.objs[o].conn && Owners(s, s.objs[o].conn) == {o, stream}
       case _ => true
  }

  ghost predicate Inv(s: State) {
    && Counted(s)
    && (forall o :: o in s.objs && s.objs[o].local.Some? ==> s.objs[o].local.value < |s.calls|)
    && (forall i :: 0 <= i < |s.calls| ==> CallInv(s, i))
  }

  lemma AddOwners(s: State, obj: Obj, c: nat)
    requires Counted(s) && obj.conn < |s.refs|
    ensures Owners(Add(s, obj), c) == if c == obj.conn then Owners(s, c) + {s.nextObj} else Owners(s, c)
    ensures s.nextObj !in Owners(s, c)
  {
  }

  lemma AddCounts(s: State, obj: Obj)
    requires Counted(s) && obj.conn < |s.refs|
    ensures Counted(Add(s, obj)) && s.nextObj !in s.objs
    ensures forall c :: Owners(Add(s, obj), c) == if c == obj.conn then Owners(s, c) + {s.nextObj} else Owners(s, c)
  {
    forall c
      ensures Owners(Add(s, obj), c) == if c == obj.conn then Owners(s, c) + {s.nextObj} else Owners(s, c)
      ensures s.nextObj !in Owners(s, c)
    {
      AddOwners(s, obj, c);
    }
  }

  lemma NewConnectionCounts(s: State, local: Option<nat>)
    requires Counted(s)
    ensures var t := NewConnection(s, local);
      && Counted(t) && s.nextObj !in s.objs
      && (forall c :: Owners(t, c) == if c == |s.refs| then {s.nextObj} else Owners(s, c))
  {
    var wider := s.(refs := s.refs + [0]);
    assert forall c :: Owners(wider, c) == Owners(s, c);
    assert Owners(wider, |s.refs|) == {};
    AddCounts(wider, Obj(ConnectionObject, |s.refs|, local));
  }

  lemma ReleaseCounts(s: State, o: nat)
    requires Counted(s) && Live(s, o)
    ensures Counted(Release(s, o))
    ensures forall c :: Owners(Release(s, o), c) == Owners(s, c) - {o}
  {
    var t := Release(s, o);
    assert forall c :: Owners(t, c) == Owners(s, c) - {o};
    assert o in Owners(s, s.objs[o].conn);
    forall c | 0 <= c < |t.refs|
      ensures t.refs[c] == |Owners(t, c)|
    {
      if c != s.objs[o].conn {
        assert Owners(t, c) == Owners(s, c);
      }
    }
  }

  /** Every live object is counted, so dropping one is always possible. */
  lemma AllLive(s: State, o: nat)
    requires Counted(s) && o in s.objs
    ensures Live(s, o)
  {
    assert o in Owners(s, s.objs[o].conn);
  }

  /** What a call that is still under way holds. */
  lemma HeldFacts(s: State, i: nat)
    requires Inv(s) && i < |s.calls|
    ensures forall o :: o in HeldBy(s.calls[i]) ==> o in s.objs && s.objs[o].local == Some(i)
  {
    assert CallInv(s, i);
    assert forall o :: o in HeldBy(s.calls[i]) ==> o in Locals(s, i);
  }

  /** A call not concerned by a step keeps its part of the invariant. */
  lemma Unconcerned(s: State, t: State, j: nat)
    requires Inv(s) && j < |s.calls| && j < |t.calls| && t.calls[j] == s.calls[j]
    requires Locals(t, j) == Locals(s, j)
    requires forall o :: o in HeldBy(s.calls[j]) ==> o in t.objs && o in s.objs && t.objs[o] == s.objs[o]
    requires forall o :: o in HeldBy(s.calls[j]) && o in s.objs ==> Owners(t, s.objs[o].conn) == Owners(s, s.objs[o].conn)
    ensures CallInv(t, j)
  {
    assert CallInv(s, j);
  }

  lemma InvokeKeepsInv(s: State, op: Op)
    requires Inv(s)
    ensures Inv(Apply(s, Invoke(op)))
  {
    var t := Apply(s, Invoke(op));
    assert forall c :: Owners(t, c) == Owners(s, c);
    forall j | 0 <= j < |t.calls|
      ensures CallInv(t, j)
    {
      assert Locals(t, j) == Locals(s, j);
      if j < |s.calls| {
        HeldFacts(s, j);
        Unconcerned(s, t, j);
      } else {
        assert Locals(s, j) == {};
      }
    }
  }

  /** A phase change of a call that holds nothing before or after. */
  lemma MoveKeepsInv(s: State, i: nat, phase: Phase)
    requires Inv(s) && i < |s.calls| && HeldBy(s.calls[i]) == {} && (phase == Dialling || phase.Done?)
    ensures Inv(Move(s, i, phase))
  {
    var t := Move(s, i, phase);
    assert forall c :: Owners(t, c) == Owners(s, c);
    forall j | 0 <= j < |t.calls|
      ensures CallInv(t, j)
    {
      assert Locals(t, j) == Locals(s, j);
      assert CallInv(s, j);
      if j != i {
        HeldFacts(s, j);
        Unconcerned(s, t, j);
      }
    }
  }

  lemma EstablishKeepsInv(s: State, i: nat)
    requires Inv(s) && Enabled(s, Establish(i))
    ensures Inv(Apply(s, Establish(i)))
  {
    var t := Apply(s, Establish(i));
    var local := if Composite(s.calls[i].op) then Some(i) else None;
    NewConnectionCounts(s, local);
    var u := NewConnection(s, local);
    assert forall c :: Owners(t, c) == Owners(u, c);
    forall j | 0 <= j < |t.calls|
      ensures CallInv(t, j)
    {
      assert CallInv(s, j);
      HeldFacts(s, j);
      assert Locals(t, j) == Locals(s, j) + (if local == Some(j) then {s.nextObj} else {});
      if j != i {
        Unconcerned(s, t, j);
      }
    }
  }

  /** Nobody but call i has an object of a connection call i holds. */
  lemma Exclusive(s: State, i: nat, o: nat, x: nat)
    requires Inv(s) && i < |s.calls| && o in HeldBy(s.calls[i]) && o in s.objs
    requires x in s.objs && s.objs[x].conn == s.objs[o].conn
    ensures x in HeldBy(s.calls[i]) && s.objs[x].local == Some(i)
  {
    assert CallInv(s, i);
    HeldFacts(s, i);
    assert x in Owners(s, s.objs[o].conn);
  }

  /** A new stream on a connection the application, or call i, holds. */
  lemma AddKeepsOthers(s: State, t: State, from: nat, obj: Obj, j: nat)
    requires Inv(s) && from in s.objs && obj.conn == s.objs[from].conn && obj.local == s.objs[from].local && obj.conn < |s.refs|
    requires t == Add(s, obj).(calls := t.calls) && j < |s.calls| && j < |t.calls| && t.calls[j] == s.calls[j]
    requires obj.local != Some(j)
    ensures CallInv(t, j)
  {
    AddCounts(s, obj);
    HeldFacts(s, j);
    assert Locals(t, j) == Locals(s, j);
    forall o | o in HeldBy(s.calls[j]) && o in s.objs
      ensures Owners(t, s.objs[o].conn) == Owners(s, s.objs[o].conn)
    {
      if s.objs[o].conn == obj.conn {
        Exclusive(s, j, o, from);
      }
      assert Owners(t, s.objs[o].conn) == Owners(Add(s, obj), s.objs[o].conn);
    }
    Unconcerned(s, t, j);
  }

  lemma StreamedKeepsInv(s: State, i: nat)
    requires Inv(s) && Enabled(s, Streamed(i))
    ensures Inv(Apply(s, Streamed(i)))
  {
    var t := Apply(s, Streamed(i));
    var o := s.calls[i].phase.obj;
    var obj := Obj(BiStream, s.objs[o].conn, Some(i));
    HeldFacts(s, i);
    AddCounts(s, obj);
    assert forall c :: Owners(t, c) == Owners(Add(s, obj), c);
    forall j | 0 <= j < |t.calls|
      ensures CallInv(t, j)
    {
      if j == i {
        assert CallInv(s, i);
        assert Locals(t, i) == Locals(s, i) + {s.nextObj};
      } else {
        AddKeepsOthers(s, t, o, obj, j);
      }
    }
  }

  lemma OpenKeepsInv(s: State, o: nat, kind: Kind)
    requires Inv(s) && Enabled(s, Open(o, kind))
    ensures Inv(Apply(s, Open(o, kind)))
  {
    var obj := Obj(kind, s.objs[o].conn, None);
    AddCounts(s, obj);
    forall j | 0 <= j < |s.calls|
      ensures CallInv(Add(s, obj), j)
    {
      AddKeepsOthers(s, Add(s, obj), o, obj, j);
    }
  }

  /** Letting go of an object that is not call j's own. */
  lemma ReleaseKeepsOthers(s: State, t: State, o: nat, j: nat)
    requires Inv(s) && Live(s, o) && s.objs[o].local != Some(j)
    requires t == Release(s, o).(calls := t.calls) && j < |s.calls| && j < |t.calls| && t.calls[j] == s.calls[j]
    ensures CallInv(t, j)
  {
    ReleaseCounts(s, o);
    HeldFacts(s, j);
    assert Locals(t, j) == Locals(s, j);
    forall x | x in HeldBy(s.calls[j]) && x in s.objs
      ensures Owners(t, s.objs[x].conn) == Owners(s, s.objs[x].conn)
    {
      if s.objs[x].conn == s.objs[o].conn {
        Exclusive(s, j, x, o);
      }
      assert Owners(t, s.objs[x].conn) == Owners(Release(s, o), s.objs[x].conn);
    }
    Unconcerned(s, t, j);
  }

  lemma DropKeepsInv(s: State, o: nat)
    requires Inv(s) && Enabled(s, Drop(o))
    ensures Inv(Apply(s, Drop(o)))
  {
    ReleaseCounts(s, o);
    forall j | 0 <= j < |s.calls|
      ensures CallInv(Release(s, o), j)
    {
      ReleaseKeepsOthers(s, Release(s, o), o, j);
    }
  }

  lemma GiveUpKeepsInv(s: State, i: nat, answer: Answer)
    requires Inv(s) && At(s, i, (p: Phase) => p.Waiting? || p.Dialling? || (p.Opening? && Live(s, p.obj)))
    ensures Inv(GiveUp(s, i, answer))
  {
    if s.calls[i].phase.Opening? {
      var o := s.calls[i].phase.obj;
      var t := GiveUp(s, i, answer);
      HeldFacts(s, i);
      ReleaseCounts(s, o);
      assert forall c :: Owners(t, c) == Owners(Release(s, o), c);
      forall j | 0 <= j < |t.calls|
        ensures CallInv(t, j)
      {
        if j == i {
          assert CallInv(s, i);
          assert Locals(t, i) == Locals(s, i) - {o};
        } else {
          ReleaseKeepsOthers(s, t, o, j);
        }
      }
    } else {
      MoveKeepsInv(s, i, Done(answer));
    }
  }

  lemma HandOverCounts(s: State, o: nat)
    requires Counted(s) && o in s.objs
    ensures Counted(HandOver(s, o))
    ensures forall c :: Owners(HandOver(s, o), c) == Owners(s, c)
    ensures forall i :: Locals(HandOver(s, o), i) == Locals(s, i) - {o}
  {
    assert forall c :: Owners(HandOver(s, o), c) == Owners(s, c);
  }

  /** The call's own connection object goes, its stream becomes the application's. */
  lemma ReturnOwners(s: State, i: nat)
    requires Inv(s) && Enabled(s, Return(i))
    ensures var p := s.calls[i].phase; var t := Apply(s, Return(i));
      && Counted(t)
      && (forall c :: Owners(t, c) == Owners(s, c) - {p.obj})
      && Locals(t, i) == {}
  {
    var p := s.calls[i].phase;
    assert CallInv(s, i);
    var u := Release(s, p.obj);
    ReleaseCounts(s, p.obj);
    assert Locals(u, i) == Locals(s, i) - {p.obj};
    HandOverCounts(u, p.stream);
    SameObjects(HandOver(u, p.stream), Apply(s, Return(i)));
  }

  lemma SameObjects(s: State, t: State)
    requires Counted(s) && t == s.(calls := t.calls)
    ensures Counted(t) && (forall c :: Owners(t, c) == Owners(s, c)) && (forall i :: Locals(t, i) == Locals(s, i))
  {
    assert forall c :: Owners(t, c) == Owners(s, c);
  }

  lemma ReturnObjects(s: State, i: nat, j: nat)
    requires Inv(s) && Enabled(s, Return(i)) && j < |s.calls| && j != i
    ensures var t := Apply(s, Return(i));
      && Locals(t, j) == Locals(s, j)
      && (forall o :: o in HeldBy(s.calls[j]) ==> o in t.objs && o in s.objs && t.objs[o] == s.objs[o])
      && s.calls[i].phase.obj in s.objs && s.objs[s.calls[i].phase.obj].local == Some(i)
  {
    HeldFacts(s, i);
    HeldFacts(s, j);
  }

  lemma ReturnKeepsOthers(s: State, i: nat, j: nat)
    requires Inv(s) && Enabled(s, Return(i)) && j < |s.calls| && j != i
    ensures CallInv(Apply(s, Return(i)), j)
  {
    var t := Apply(s, Return(i));
    var gone := s.calls[i].phase.obj;
    ReturnObjects(s, i, j);
    ReturnOwners(s, i);
    forall x | x in HeldBy(s.calls[j]) && x in s.objs
      ensures Owners(t, s.objs[x].conn) == Owners(s, s.objs[x].conn)
    {
      if s.objs[x].conn == s.objs[gone].conn {
        Exclusive(s, j, x, gone);
      }
    }
    Unconcerned(s, t, j);
  }

  lemma ReturnKeepsInv(s: State, i: nat)
    requires Inv(s) && Enabled(s, Return(i))
    ensures Inv(Apply(s, Return(i)))
  {
    var t := Apply(s, Return(i));
    ReturnOwners(s, i);
    forall j | 0 <= j < |t.calls|
      ensures CallInv(t, j)
    {
      if j != i {
        ReturnKeepsOthers(s, i, j);
      }
    }
  }

  lemma ClosingKeepsInv(s: State, t: State)
    requires Inv(s) && t == s.(shut := t.shut, down := t.down) && forall c :: c in t.shut ==> c < |s.refs|
    ensures Inv(t)
  {
    assert forall c :: Owners(t, c) == Owners(s, c);
    forall j | 0 <= j < |t.calls|
      ensures CallInv(t, j)
    {
      assert Locals(t, j) == Locals(s, j);
      HeldFacts(s, j);
      Unconcerned(s, t, j);
    }
  }

  lemma StepKeepsInv(s: State, e: Event)
    requires Inv(s) && Enabled(s, e)
    ensures Inv(Apply(s, e))
  {
    match e
    case Invoke(op) => InvokeKeepsInv(s, op);
    case Incoming(i) => MoveKeepsInv(s, i, Dialling);
    case End(i) => MoveKeepsInv(s, i, Done(Ended));
    case Establish(i) => EstablishKeepsInv(s, i);
    case Streamed(i) => StreamedKeepsInv(s, i);
    case Return(i) => ReturnKeepsInv(s, i);
    case Fail(i) => GiveUpKeepsInv(s, i, Failed);
    case Cancel(i) => GiveUpKeepsInv(s, i, Cancelled);
    case Open(o, kind) => OpenKeepsInv(s, o, kind);
    case Drop(o) => DropKeepsInv(s, o);
    case _ => ClosingKeepsInv(s, Apply(s, e));
  }

  lemma {:induction false} RunKeepsInv(s: State, run: seq<Event>)
    requires Inv(s) && Legal(s, run)
    ensures Inv(Exec(s, run))
    decreases |run|
  {
    if run != [] {
      StepKeepsInv(s, run[0]);
      RunKeepsInv(Apply(s, run[0]), run[1..]);
    }
  }
}
