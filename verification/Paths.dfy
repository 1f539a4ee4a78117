/** Classifying a connection by its open paths, and whether a caller who only has the exported
    snapshot would classify it the same way. */
module Paths {
  import opened Prelude

  datatype Transport = Ip | Relay | Other

  /** A path as the library reports it. */
  datatype Path = Path(addr: string, transport: Transport, selected: bool, rttMillis: nat)

  /** The two kinds the exported record can express. */
  datatype Kind = IpKind | RelayKind

  datatype ConnPath = ConnPath(addr: string, kind: Kind, selected: bool, rttMs: Option<nat>)

  datatype ConnType = Direct | Relayed | Mixed | NoPath

  const U64 := 0x1_0000_0000_0000_0000

  /** `as_millis() as u64` keeps the low 64 bits. */
  function Millis(p: Path): nat {
    p.rttMillis % U64
  }

  function Exported(p: Path): ConnPath {
    ConnPath(p.addr, if p.transport == Relay then RelayKind else IpKind, p.selected, Some(Millis(p)))
  }

  function Snapshot(paths: seq<Path>): (r: seq<ConnPath>)
    ensures |r| == |paths| && forall i :: 0 <= i < |r| ==> r[i] == Exported(paths[i])
  {
    if paths == [] then [] else [Exported(paths[0])] + Snapshot(paths[1..])
  }

  /** Index of the first element satisfying p, or the length. */
  function Find<T>(s: seq<T>, p: T -> bool): (i: nat)
    ensures i <= |s| && (i < |s| ==> p(s[i])) && forall j :: 0 <= j < i ==> !p(s[j])
  {
    if s == [] || p(s[0]) then 0
    else
      var i := Find(s[1..], p);
      assert forall j :: 1 <= j < i + 1 ==> s[j] == s[1..][j - 1];
      i + 1
  }

  function Verdict(anyIp: bool, anyRelay: bool): ConnType {
    if anyIp && anyRelay then Mixed
    else if anyIp then Direct
    else if anyRelay then Relayed
    else NoPath
  }

  predicate Uses(paths: seq<Path>, t: Transport) {
    exists p :: p in paths && p.transport == t
  }

  predicate Shows(paths: seq<ConnPath>, k: Kind) {
    exists p :: p in paths && p.kind == k
  }

  function ConnTypeOf(paths: seq<Path>): ConnType {
    var i := Find(paths, (p: Path) => p.selected);
    if paths == [] then NoPath
    else if i < |paths| then if paths[i].transport == Relay then Relayed else Direct
    else Verdict(Uses(paths, Ip), Uses(paths, Relay))
  }

  function RttMs(paths: seq<Path>): Option<nat> {
    var i := Find(paths, (p: Path) => p.selected);
    if i < |paths| then Some(Millis(paths[i])) else None
  }

  /** The same rule applied by someone who only sees the snapshot. */
  function SnapshotType(paths: seq<ConnPath>): ConnType {
    var i := Find(paths, (p: ConnPath) => p.selected);
    if paths == [] then NoPath
    else if i < |paths| then if paths[i].kind == RelayKind then Relayed else Direct
    else Verdict(Shows(paths, IpKind), Shows(paths, RelayKind))
  }

  lemma SameFirstSelected(paths: seq<Path>)
    ensures Find(paths, (p: Path) => p.selected) == Find(Snapshot(paths), (p: ConnPath) => p.selected)
  {
    var i := Find(paths, (p: Path) => p.selected);
    var j := Find(Snapshot(paths), (p: ConnPath) => p.selected);
    assert !(i < j) by {
      assert i < |paths| ==> Snapshot(paths)[i].selected;
    }
    assert !(j < i) by {
      assert j < |paths| ==> paths[j].selected == Snapshot(paths)[j].selected;
    }
  }

  /** What a caller reads off the snapshot: one entry per path, in order, with its address, whether
      it is selected, whether it is a relay, and its round-trip time - the very number of
      milliseconds whenever that fits 64 bits, and the same modulo 2^64 always. */
  lemma SnapshotIsFaithful(paths: seq<Path>, i: nat)
    requires i < |paths|
    ensures |Snapshot(paths)| == |paths|
    ensures var p := paths[i]; var e := Snapshot(paths)[i];
      && e.addr == p.addr && e.selected == p.selected && (e.kind == RelayKind <==> p.transport == Relay)
      && e.rttMs.Some? && e.rttMs.value < 0x1_0000_0000_0000_0000
      && (p.rttMillis < 0x1_0000_0000_0000_0000 ==> e.rttMs.value == p.rttMillis)
      && (p.rttMillis - e.rttMs.value) % 0x1_0000_0000_0000_0000 == 0
  {
    MillisFit(paths[i]);
  }

  lemma MillisFit(p: Path)
    ensures Millis(p) < 0x1_0000_0000_0000_0000
    ensures p.rttMillis < 0x1_0000_0000_0000_0000 ==> Millis(p) == p.rttMillis
    ensures (p.rttMillis - Millis(p)) % 0x1_0000_0000_0000_0000 == 0
  {
    var q := p.rttMillis / U64;
    assert p.rttMillis - Millis(p) == U64 * q;
  }

  /** `rtt_ms` is what the first selected entry of the snapshot says, and None when none is. */
  lemma RttAgreesWithSnapshot(paths: seq<Path>)
    ensures var snap := Snapshot(paths); var i := Find(snap, (p: ConnPath) => p.selected);
      RttMs(paths) == if i < |snap| then snap[i].rttMs else None
  {
    SameFirstSelected(paths);
  }

  predicate AnySelected(paths: seq<Path>) {
    exists p :: p in paths && p.selected
  }

  /** What each verdict means: a selected path decides alone, by the first one; otherwise it is
      which of the two known transports are in use. */
  lemma ConnTypeMeans(paths: seq<Path>)
    ensures AnySelected(paths) ==>
      var i := Find(paths, (p: Path) => p.selected);
      && i < |paths| && paths[i].selected && (forall j :: 0 <= j < i ==> !paths[j].selected)
      && ConnTypeOf(paths) == if paths[i].transport == Relay then Relayed else Direct
    ensures !AnySelected(paths) ==>
      && (ConnTypeOf(paths) == Mixed <==> Uses(paths, Ip) && Uses(paths, Relay))
      && (ConnTypeOf(paths) == Direct <==> Uses(paths, Ip) && !Uses(paths, Relay))
      && (ConnTypeOf(paths) == Relayed <==> !Uses(paths, Ip) && Uses(paths, Relay))
  {
    var i := Find(paths, (p: Path) => p.selected);
    if i < |paths| {
      assert paths[i] in paths;
    }
    if AnySelected(paths) {
      var p :| p in paths && p.selected;
      var j :| 0 <= j < |paths| && paths[j] == p;
      assert i <= j;
    }
  }

  /** The same paths, listed in another order. */
  predicate Reordering(paths: seq<Path>, other: seq<Path>) {
    multiset(paths) == multiset(other)
  }

  /** All selected paths are relays, or none is. */
  predicate SelectedAgree(paths: seq<Path>) {
    forall p, q :: p in paths && q in paths && p.selected && q.selected ==> (p.transport == Relay <==> q.transport == Relay)
  }

  lemma ReorderingMembers(paths: seq<Path>, other: seq<Path>)
    requires Reordering(paths, other)
    ensures forall p :: p in paths <==> p in other
  {
    assert forall p :: p in paths <==> p in multiset(paths);
    assert forall p :: p in other <==> p in multiset(other);
  }

  /** A selected path decides the verdict, given that all of them would decide alike. */
  lemma SelectedDecides(paths: seq<Path>, p: Path)
    requires SelectedAgree(paths) && p in paths && p.selected
    ensures ConnTypeOf(paths) == if p.transport == Relay then Relayed else Direct
  {
    ConnTypeMeans(paths);
    var i := Find(paths, (p: Path) => p.selected);
    assert paths[i] in paths;
  }

  lemma SameVerdict(paths: seq<Path>, other: seq<Path>)
    requires Reordering(paths, other) && SelectedAgree(paths)
    ensures ConnTypeOf(other) == ConnTypeOf(paths)
  {
    ReorderingMembers(paths, other);
    if AnySelected(paths) {
      var p :| p in paths && p.selected;
      SelectedDecides(paths, p);
      SelectedDecides(other, p);
    } else {
      ConnTypeMeans(paths);
      ConnTypeMeans(other);
    }
  }

  function ToFront(paths: seq<Path>, i: nat): (r: seq<Path>)
    requires i < |paths|
    ensures Reordering(paths, r) && r != [] && r[0] == paths[i]
  {
    assert paths == paths[..i] + ([paths[i]] + paths[i + 1..]);
    [paths[i]] + paths[..i] + paths[i + 1..]
  }

  lemma FrontDecides(paths: seq<Path>)
    requires paths != [] && paths[0].selected
    ensures ConnTypeOf(paths) == if paths[0].transport == Relay then Relayed else Direct
  {
  }

  /** The library's order of paths is of no account to `conn_type` exactly when the selected paths
      agree on being relays or not; otherwise some reordering gets another verdict. */
  lemma OrderIsImmaterialExactlyWhen(paths: seq<Path>)
    ensures (forall other :: Reordering(paths, other) ==> ConnTypeOf(other) == ConnTypeOf(paths)) <==> SelectedAgree(paths)
  {
    if SelectedAgree(paths) {
      forall other | Reordering(paths, other)
        ensures ConnTypeOf(other) == ConnTypeOf(paths)
      {
        SameVerdict(paths, other);
      }
    } else {
      var p, q :| p in paths && q in paths && p.selected && q.selected && (p.transport == Relay) != (q.transport == Relay);
      var i :| 0 <= i < |paths| && paths[i] == p;
      var j :| 0 <= j < |paths| && paths[j] == q;
      FrontDecides(ToFront(paths, i));
      FrontDecides(ToFront(paths, j));
    }
  }

  predicate Agreeable(paths: seq<Path>) {
    || AnySelected(paths)
    || Uses(paths, Ip)
    || !Uses(paths, Other)
  }

  /** The exported snapshot supports the same verdict exactly when some path is selected, or
      some path is IP, or every path is IP or relay: a path of another kind is exported as IP. */
  lemma SnapshotAgreesExactlyWhen(paths: seq<Path>)
    ensures ConnTypeOf(paths) == SnapshotType(Snapshot(paths)) <==> Agreeable(paths)
  {
    SameFirstSelected(paths);
    ShownKinds(paths);
    var i := Find(paths, (p: Path) => p.selected);
    if i < |paths| {
      assert paths[i] in paths;
    }
  }

  lemma ShownKinds(paths: seq<Path>)
    ensures Shows(Snapshot(paths), RelayKind) <==> Uses(paths, Relay)
    ensures Shows(Snapshot(paths), IpKind) <==> Uses(paths, Ip) || Uses(paths, Other)
  {
    var snap := Snapshot(paths);
    forall p | p in paths
      ensures Exported(p) in snap
    {
      var i :| 0 <= i < |paths| && paths[i] == p;
      assert snap[i] == Exported(p);
    }
    forall q | q in snap
      ensures exists p :: p in paths && Exported(p) == q
    {
      var i :| 0 <= i < |snap| && snap[i] == q;
      assert paths[i] in paths;
    }
  }

  /** A concrete disagreement: one unselected path that is neither IP nor relay. */
  lemma OtherTransportIsExportedAsIp(addr: string)
    ensures var paths := [Path(addr, Other, false, 5)];
      ConnTypeOf(paths) == NoPath && SnapshotType(Snapshot(paths)) == Direct
  {
    var paths := [Path(addr, Other, false, 5)];
    assert Snapshot(paths)[0] in Snapshot(paths) && Snapshot(paths)[0].kind == IpKind;
    assert forall p :: p in paths ==> p == paths[0];
    assert forall q :: q in Snapshot(paths) ==> q == Snapshot(paths)[0];
  }
}
