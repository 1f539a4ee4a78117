/** Looping `addr_updated`, as the README advises, against an endpoint whose addressing info
    changes without bound. Every call makes a fresh watcher, which starts at whatever version is
    current when the call is made; the call returns the current version once that is newer.
    Assumption about the library: a watcher reports a change exactly when the version it last
    saw is no longer the current one. */
module AddrWatch {
  import opened Prelude

  datatype Phase = Between | Watching(from: nat)

  /** One returned call: the version its watcher started at, and the version it returned. */
  datatype Snapshot = Snapshot(from: nat, version: nat)

  /** Version v of the address is history[v]; `snaps` holds what the loop has been given. */
  datatype State<A> = State(history: seq<A>, gone: bool, phase: Phase, snaps: seq<Snapshot>)

  datatype Event<A> =
    | Change(addr: A)
    | Watch        // the loop calls addr_updated
    | Return       // updated() resolves
    | Disconnect
    | ReturnLast   // updated() reports disconnection; the call returns watcher.get()
    | Cancel

  function Init<A>(addr: A): State<A> {
    State([addr], false, Between, [])
  }

  function Version<A>(s: State<A>): int {
    |s.history| - 1
  }

  predicate Enabled<A>(s: State<A>, e: Event<A>) {
    match e
    case Change(_) => !s.gone
    case Watch => s.phase.Between? && s.history != []
    case Return => s.phase.Watching? && Version(s) > s.phase.from && !s.gone
    case Disconnect => true
    case ReturnLast => s.phase.Watching? && s.gone && s.history != []
    case Cancel => s.phase.Watching?
  }

  function Apply<A>(s: State<A>, e: Event<A>): State<A>
    requires Enabled(s, e)
  {
    match e
    case Change(addr) => s.(history := s.history + [addr])
    case Watch => s.(phase := Watching(Version(s)))
    case Return => s.(phase := Between, snaps := s.snaps + [Snapshot(s.phase.from, Version(s))])
    case Disconnect => s.(gone := true)
    case ReturnLast => s.(phase := Between, snaps := s.snaps + [Snapshot(s.phase.from, Version(s))])
    case Cancel => s.(phase := Between)
  }

  predicate Legal<A>(s: State<A>, run: seq<Event<A>>)
    decreases |run|
  {
    run == [] || (Enabled(s, run[0]) && Legal(Apply(s, run[0]), run[1..]))
  }

  function Exec<A>(s: State<A>, run: seq<Event<A>>): State<A>
    requires Legal(s, run)
    decreases |run|
  {
    if run == [] then s else Exec(Apply(s, run[0]), run[1..])
  }

  lemma {:induction false} Split<A>(s: State<A>, first: seq<Event<A>>, second: seq<Event<A>>)
    ensures Legal(s, first + second) <==> Legal(s, first) && Legal(Exec(s, first), second)
    ensures Legal(s, first + second) ==> Exec(s, first + second) == Exec(Exec(s, first), second)
    decreases |first|
  {
    if first == [] {
      assert first + second == second;
    } else {
      assert (first + second)[1..] == first[1..] + second;
      if Enabled(s, first[0]) {
        Split(Apply(s, first[0]), first[1..], second);
      }
    }
  }

  // ------------------------------------------------- snapshots go strictly forward

  ghost predicate Inv<A>(s: State<A>) {
    && s.history != []
    && (s.phase.Watching? ==> s.phase.from <= Version(s))
    && (forall i :: 0 <= i < |s.snaps| ==> s.snaps[i].from <= s.snaps[i].version <= Version(s))
    && (forall i :: 0 <= i < |s.snaps| ==> s.gone || s.snaps[i].from < s.snaps[i].version)
    && (forall i, j :: 0 <= i < j < |s.snaps| ==> s.snaps[i].version <= s.snaps[j].from)
    && (s.phase.Watching? ==> forall i :: 0 <= i < |s.snaps| ==> s.snaps[i].version <= s.phase.from)
  }

  lemma StepKeepsInv<A>(s: State<A>, e: Event<A>)
    requires Inv(s) && Enabled(s, e)
    ensures Inv(Apply(s, e))
  {
  }

  lemma {:induction false} RunKeepsInv<A>(s: State<A>, run: seq<Event<A>>)
    requires Inv(s) && Legal(s, run)
    ensures Inv(Exec(s, run))
    decreases |run|
  {
    if run != [] {
      StepKeepsInv(s, run[0]);
      RunKeepsInv(Apply(s, run[0]), run[1..]);
    }
  }

  /** As long as the endpoint is there, every call is given a version newer than what was current
      when it began, and begins no earlier than the version the call before it was given: the
      loop never goes back and never sees a version twice. Each version was the current one at
      the moment of return: when a run ends in a return, the last snapshot is the current
      version. */
  lemma SnapshotsGoForward<A>(addr: A, run: seq<Event<A>>)
    requires Legal(Init(addr), run) && !Exec(Init(addr), run).gone
    ensures var s := Exec(Init(addr), run);
      && (forall i :: 0 <= i < |s.snaps| ==> s.snaps[i].from < s.snaps[i].version < |s.history|)
      && (forall i, j :: 0 <= i < j < |s.snaps| ==> s.snaps[i].version <= s.snaps[j].from)
      && (forall i, j :: 0 <= i < j < |s.snaps| ==> s.snaps[i].version < s.snaps[j].version)
      && (run != [] && Last(run) == Return ==> s.snaps != [] && Last(s.snaps).version == Version(s))
  {
    var s := Exec(Init(addr), run);
    RunKeepsInv(Init(addr), run);
    forall i, j | 0 <= i < j < |s.snaps|
      ensures s.snaps[i].version < s.snaps[j].version
    {
      assert s.snaps[i].version <= s.snaps[j].from < s.snaps[j].version;
    }
    if run != [] && Last(run) == Return {
      Split(Init(addr), Front(run), [Return]);
      assert run == Front(run) + [Return];
    }
  }

  // ------------------------------------------------------------- missed changes

  /** Anything but a return; and, more narrowly, nothing the loop itself does. */
  predicate Silent<A>(e: Event<A>) {
    !e.Return? && !e.ReturnLast?
  }

  predicate Quiet<A>(e: Event<A>) {
    e.Change? || e.Disconnect?
  }

  function Changes<A>(run: seq<Event<A>>): nat {
    if run == [] then 0 else (if run[0].Change? then 1 else 0) + Changes(run[1..])
  }

  lemma {:induction false} NoChanges<A>(run: seq<Event<A>>)
    ensures Changes(run) == 0 <==> forall e :: e in run ==> !e.Change?
  {
    if run != [] {
      NoChanges(run[1..]);
      assert forall e :: e in run <==> e == run[0] || e in run[1..];
    }
  }

  lemma {:induction false} SilentRun<A>(s: State<A>, run: seq<Event<A>>)
    requires Legal(s, run) && forall e :: e in run ==> Silent(e)
    ensures Exec(s, run).snaps == s.snaps
    ensures Version(Exec(s, run)) == Version(s) + Changes(run)
    ensures (forall e :: e in run ==> Quiet(e)) ==> Exec(s, run).phase == s.phase
    decreases |run|
  {
    if run != [] {
      assert run[0] in run && forall e :: e in run[1..] ==> e in run;
      SilentRun(Apply(s, run[0]), run[1..]);
    }
  }

  /** The loop sits in a call that nothing so far has woken. Then the snapshot it was last given
      is the current one exactly when no change fell between that return and this call, calls
      cancelled in between included - such a change, and with it the current address, is not
      reported until the next one comes. */
  lemma LoopIsCurrentExactlyWhenNothingFellBetween<A>(addr: A, before: seq<Event<A>>, gap: seq<Event<A>>, tail: seq<Event<A>>)
    requires forall e :: e in gap ==> Silent(e)
    requires forall e :: e in tail ==> Quiet(e)
    requires Legal(Init(addr), before + [Return] + gap + [Watch] + tail)
    requires !Enabled(Exec(Init(addr), before + [Return] + gap + [Watch] + tail), Return)
    requires !Exec(Init(addr), before + [Return] + gap + [Watch] + tail).gone
    ensures var s := Exec(Init(addr), before + [Return] + gap + [Watch] + tail);
      && s.snaps != []
      && (Last(s.snaps).version == Version(s) <==> forall e :: e in gap ==> !e.Change?)
  {
    var s0 := Init(addr);
    Split(s0, before + [Return] + gap + [Watch], tail);
    Split(s0, before + [Return] + gap, [Watch]);
    Split(s0, before + [Return], gap);
    Split(s0, before, [Return]);
    var s1 := Exec(s0, before + [Return]);
    SilentRun(s1, gap);
    var s2 := Exec(s1, gap);
    var s3 := Apply(s2, Watch);
    SilentRun(s3, tail);
    NoChanges(gap);
  }

  /** A concrete missed change: the address moves once between two calls, and the loop then
      waits with the address it had before. */
  lemma ChangeBetweenCallsIsMissed(a: int, b: int, c: int)
    ensures var run := [Watch, Change(b)] + [Return] + [Change(c)] + [Watch] + [];
      && Legal(Init(a), run)
      && Exec(Init(a), run).snaps == [Snapshot(0, 1)] && Version(Exec(Init(a), run)) == 2
      && !Enabled(Exec(Init(a), run), Return)
  {
    var s2 := State([a, b], false, Watching(0), []);
    var s3 := State([a, b], false, Between, [Snapshot(0, 1)]);
    var s4 := State([a, b, c], false, Between, [Snapshot(0, 1)]);
    var s5 := State([a, b, c], false, Watching(2), [Snapshot(0, 1)]);
    var w := [Watch, Change(b)];
    Split(Init(a), [Watch], [Change(b)]);
    assert w == [Watch] + [Change(b)];
    assert [a] + [b] == [a, b] && [a, b] + [c] == [a, b, c];
    assert Apply(Apply(Init(a), Watch), Change(b)) == s2;
    assert Legal(Init(a), w) && Exec(Init(a), w) == s2;
    Split(Init(a), w, [Return]);
    assert Exec(Init(a), w + [Return]) == s3;
    Split(Init(a), w + [Return], [Change(c)]);
    assert Exec(Init(a), w + [Return] + [Change(c)]) == s4;
    Split(Init(a), w + [Return] + [Change(c)], [Watch]);
    assert Exec(Init(a), w + [Return] + [Change(c)] + [Watch]) == s5;
    Split(Init(a), w + [Return] + [Change(c)] + [Watch], []);
  }

  /** Dropping a waiting call and calling again starts afresh: the new call waits from the version
      current by then, so a change the dropped call was about to report is not reported. */
  lemma CancelledCallForgetsTheChange<A>(s: State<A>)
    requires Inv(s) && s.phase.Watching? && !s.gone
    ensures Legal(s, [Cancel] + [Watch])
    ensures var t := Exec(s, [Cancel] + [Watch]);
      t.phase.Watching? && t.snaps == s.snaps && t.history == s.history && !Enabled(t, Return)
  {
    Split(s, [Cancel], [Watch]);
  }

  // ---------------------------------------------------------- after disconnection

  function Spin<A>(n: nat): seq<Event<A>> {
    if n == 0 then [] else [Watch, ReturnLast] + Spin(n - 1)
  }

  /** Disconnection is for good, over every run: the address never changes again, and whenever a
      call is waiting it can return, with the last version. */
  lemma {:induction false} DisconnectionIsFinal<A>(s: State<A>, run: seq<Event<A>>)
    requires Inv(s) && Legal(Apply(s, Disconnect), run)
    ensures var t := Exec(Apply(s, Disconnect), run);
      && t.gone && t.history == s.history
      && (t.phase.Watching? ==> Enabled(t, ReturnLast) && Apply(t, ReturnLast).snaps == t.snaps + [Snapshot(t.phase.from, Version(s))])
    decreases |run|
  {
    GoneRun(Apply(s, Disconnect), run);
  }

  lemma {:induction false} GoneRun<A>(s: State<A>, run: seq<Event<A>>)
    requires s.gone && Legal(s, run)
    ensures Exec(s, run).gone && Exec(s, run).history == s.history
    decreases |run|
  {
    if run != [] {
      GoneRun(Apply(s, run[0]), run[1..]);
    }
  }

  /** Once the watched value is gone the call no longer waits: any number of further calls
      return at once, all with the same last version. */
  lemma {:induction false} DisconnectedLoopNeverWaits<A>(s: State<A>, n: nat)
    requires Inv(s) && s.gone && s.phase.Between?
    ensures Legal(s, Spin<A>(n))
    ensures var t := Exec(s, Spin<A>(n));
      && t.history == s.history
      && |t.snaps| == |s.snaps| + n && s.snaps <= t.snaps
      && (forall i :: |s.snaps| <= i < |t.snaps| ==> t.snaps[i].version == Version(s))
    decreases n
  {
    if n > 0 {
      var t := Apply(Apply(s, Watch), ReturnLast);
      StepKeepsInv(s, Watch);
      StepKeepsInv(Apply(s, Watch), ReturnLast);
      DisconnectedLoopNeverWaits(t, n - 1);
      assert ([Watch, ReturnLast] + Spin<A>(n - 1))[1..][1..] == Spin<A>(n - 1);
      assert t.snaps[|s.snaps|].version == Version(s);
    }
  }
}
