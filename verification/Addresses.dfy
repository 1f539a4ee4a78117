/** Endpoint addresses in their two forms. The native one carries an ordered set mixing relay,
    IP and other transports; the flat one, which crosses the FFI, carries text: an id, at most
    one relay, and a list of socket addresses. */
module Addresses {
  import opened Prelude

  type Id = Bytes
  type Url = string

  /** `flow` is the IPv6 flow label, which the text form of a socket address leaves out. */
  datatype Sock = Sock(host: Bytes, port: nat, flow: nat)

  datatype Transport = Relay(url: Url) | Ip(sock: Sock) | Other(data: Bytes)

  /** `addrs` enumerates an ordered set: strictly increasing in the library's order. */
  datatype Native = Native(id: Id, addrs: seq<Transport>)

  datatype Flat = Flat(id: string, relay: Option<string>, direct: seq<string>)

  datatype Error = BadId | BadAddress(index: nat) | BadRelay | BadTicket

  /** The library functions the conversions rest on. */
  datatype Lib = Lib(
    printId: Id -> string, parseId: string -> Option<Id>,
    printSock: Sock -> string, parseSock: string -> Option<Sock>,
    printUrl: Url -> string, parseUrl: string -> Option<Url>,
    less: (Transport, Transport) -> bool)

  function Printed(a: Sock): Sock {
    a.(flow := 0)
  }

  ghost predicate TotalOrder(less: (Transport, Transport) -> bool) {
    && (forall a :: !less(a, a))
    && (forall a, b, c :: less(a, b) && less(b, c) ==> less(a, c))
    && (forall a, b :: a == b || less(a, b) || less(b, a))
  }

  /** Assumptions: parsing undoes printing, except that a flow label is lost, and no parsed
      address has one; the set order is total. */
  ghost predicate Lawful(lib: Lib) {
    && (forall id :: lib.parseId(lib.printId(id)) == Some(id))
    && (forall a :: lib.parseSock(lib.printSock(a)) == Some(Printed(a)))
    && (forall t :: lib.parseSock(t).Some? ==> lib.parseSock(t).value.flow == 0)
    && (forall u :: lib.parseUrl(lib.printUrl(u)) == Some(u))
    && TotalOrder(lib.less)
  }

  // ------------------------------------------------------------ the ordered set

  predicate Sorted(lib: Lib, s: seq<Transport>) {
    forall i, j :: 0 <= i < j < |s| ==> lib.less(s[i], s[j])
  }

  function Insert(lib: Lib, s: seq<Transport>, x: Transport): (r: seq<Transport>)
    ensures forall y :: y in r <==> y in s || y == x
  {
    if s == [] then [x]
    else if x == s[0] then s
    else if lib.less(x, s[0]) then [x] + s
    else [s[0]] + Insert(lib, s[1..], x)
  }

  /** Collecting a list into the ordered set. */
  function Collect(lib: Lib, list: seq<Transport>): (r: seq<Transport>)
    ensures forall y :: y in r <==> y in list
  {
    if list == [] then []
    else
      assert forall y :: y in list <==> y in Front(list) || y == Last(list);
      Insert(lib, Collect(lib, Front(list)), Last(list))
  }

  lemma {:induction false} InsertSorted(lib: Lib, s: seq<Transport>, x: Transport)
    requires TotalOrder(lib.less) && Sorted(lib, s)
    ensures Sorted(lib, Insert(lib, s, x))
  {
    if s != [] && x != s[0] {
      if lib.less(x, s[0]) {
        assert forall i :: 0 < i < |s| ==> lib.less(s[0], s[i]);
      } else {
        var rest := Insert(lib, s[1..], x);
        InsertSorted(lib, s[1..], x);
        assert forall j :: 0 <= j < |rest| ==> rest[j] in rest;
        assert forall y :: y in s[1..] ==> lib.less(s[0], y);
      }
    }
  }

  lemma {:induction false} CollectSorted(lib: Lib, list: seq<Transport>)
    requires TotalOrder(lib.less)
    ensures Sorted(lib, Collect(lib, list))
  {
    if list != [] {
      CollectSorted(lib, Front(list));
      InsertSorted(lib, Collect(lib, Front(list)), Last(list));
    }
  }

  /** An ordered set is determined by its members. */
  lemma {:induction false} SortedIsUnique(lib: Lib, s: seq<Transport>, t: seq<Transport>)
    requires TotalOrder(lib.less) && Sorted(lib, s) && Sorted(lib, t)
    requires forall y :: y in s <==> y in t
    ensures s == t
  {
    if s == [] {
      assert forall i :: 0 <= i < |t| ==> t[i] in t;
    } else {
      assert s[0] in t && t != [] && t[0] in s;
      assert s[0] == t[0];
      forall y
        ensures y in s[1..] <==> y in t[1..]
      {
        assert y in s <==> y == s[0] || y in s[1..];
        assert y in t <==> y == t[0] || y in t[1..];
        assert s[0] !in s[1..] && t[0] !in t[1..];
      }
      SortedIsUnique(lib, s[1..], t[1..]);
    }
  }

  // ------------------------------------------------------------ native to flat

  function Relays(s: seq<Transport>): (r: seq<Url>)
    ensures forall u :: u in r <==> Relay(u) in s
  {
    if s == [] then []
    else if s[0].Relay? then [s[0].url] + Relays(s[1..])
    else Relays(s[1..])
  }

  function Ips(s: seq<Transport>): (r: seq<Sock>)
    ensures forall a :: a in r <==> Ip(a) in s
  {
    if s == [] then []
    else if s[0].Ip? then [s[0].sock] + Ips(s[1..])
    else Ips(s[1..])
  }

  function PrintAll(lib: Lib, socks: seq<Sock>): (r: seq<string>)
    ensures |r| == |socks| && forall i :: 0 <= i < |r| ==> r[i] == lib.printSock(socks[i])
  {
    if socks == [] then [] else [lib.printSock(socks[0])] + PrintAll(lib, socks[1..])
  }

  /** `From<iroh::EndpointAddr>`: the first relay and every IP address, in set order. */
  function Flatten(lib: Lib, n: Native): Flat {
    var relays := Relays(n.addrs);
    Flat(
      lib.printId(n.id),
      if relays == [] then None else Some(lib.printUrl(relays[0])),
      PrintAll(lib, Ips(n.addrs)))
  }

  // ------------------------------------------------------------ flat to native

  predicate Parses(lib: Lib, t: string) {
    lib.parseSock(t).Some?
  }

  function Denoted(lib: Lib, t: string): Transport
    requires Parses(lib, t)
  {
    Ip(lib.parseSock(t).value)
  }

  /** The first text that does not parse, if any. */
  function FirstBad(lib: Lib, texts: seq<string>): (i: nat)
    ensures i <= |texts|
    ensures i < |texts| ==> !Parses(lib, texts[i])
    ensures forall j :: 0 <= j < i ==> Parses(lib, texts[j])
  {
    if texts == [] || !Parses(lib, texts[0]) then 0
    else
      var i := FirstBad(lib, texts[1..]);
      assert forall j :: 1 <= j < i + 1 ==> texts[j] == texts[1..][j - 1];
      i + 1
  }

  function ParseAll(lib: Lib, texts: seq<string>): (r: seq<Transport>)
    requires forall i :: 0 <= i < |texts| ==> Parses(lib, texts[i])
    ensures |r| == |texts| && forall i :: 0 <= i < |r| ==> r[i] == Denoted(lib, texts[i])
  {
    if texts == [] then [] else [Denoted(lib, texts[0])] + ParseAll(lib, texts[1..])
  }

  /** What a flat address denotes: its errors are reported id first, then the addresses in
      order, then the relay. */
  function Structured(lib: Lib, f: Flat): Result<Native, Error> {
    if lib.parseId(f.id).None? then Failure(BadId)
    else if FirstBad(lib, f.direct) < |f.direct| then Failure(BadAddress(FirstBad(lib, f.direct)))
    else if f.relay.Some? && lib.parseUrl(f.relay.value).None? then Failure(BadRelay)
    else
      var ips := ParseAll(lib, f.direct);
      var relay := if f.relay.None? then [] else [Relay(lib.parseUrl(f.relay.value).value)];
      Success(Native(lib.parseId(f.id).value, Collect(lib, ips + relay)))
  }

  /** `TryFrom<EndpointAddr>`: pushes each parsed address onto a vector, leaving at the first
      that does not parse. */
  method TryFrom(lib: Lib, f: Flat) returns (r: Result<Native, Error>)
    ensures r == Structured(lib, f)
  {
    var id := lib.parseId(f.id);
    if id.None? {
      return Failure(BadId);
    }
    var addrs: seq<Transport> := [];
    var i := 0;
    while i < |f.direct|
      invariant 0 <= i <= |f.direct| && i <= FirstBad(lib, f.direct) && |addrs| == i
      invariant forall j :: 0 <= j < i ==> Parses(lib, f.direct[j]) && addrs[j] == Denoted(lib, f.direct[j])
    {
      var sock := lib.parseSock(f.direct[i]);
      if sock.None? {
        return Failure(BadAddress(i));
      }
      addrs := addrs + [Ip(sock.value)];
      i := i + 1;
    }
    assert addrs == ParseAll(lib, f.direct);
    if f.relay.Some? {
      var url := lib.parseUrl(f.relay.value);
      if url.None? {
        return Failure(BadRelay);
      }
      addrs := addrs + [Relay(url.value)];
    } else {
      assert addrs + [] == addrs;
    }
    r := Success(Native(id.value, Collect(lib, addrs)));
  }

  // --------------------------------------------------------- native, flat, native

  /** Nothing is lost exactly when there is one relay at most, no transport that is neither IP
      nor relay, and no flow label. */
  predicate Lossless(n: Native) {
    |Relays(n.addrs)| <= 1 && forall a :: a in n.addrs ==> !a.Other? && (a.Ip? ==> a.sock.flow == 0)
  }

  /** What survives of an address set: every IP address as printed, and the first relay. */
  ghost predicate Survives(n: Native, a: Transport) {
    match a
    case Ip(sock) => sock.flow == 0 && exists b :: Ip(b) in n.addrs && Printed(b) == sock
    case Relay(url) => Relays(n.addrs) != [] && url == Relays(n.addrs)[0]
    case Other(_) => false
  }

  lemma FlattenedParses(lib: Lib, n: Native)
    requires Lawful(lib)
    ensures var f := Flatten(lib, n);
      && lib.parseId(f.id) == Some(n.id)
      && FirstBad(lib, f.direct) == |f.direct|
      && (forall i :: 0 <= i < |f.direct| ==> lib.parseSock(f.direct[i]) == Some(Printed(Ips(n.addrs)[i])))
      && (f.relay.Some? ==> lib.parseUrl(f.relay.value) == Some(Relays(n.addrs)[0]))
  {
  }

  /** Flattening a native address and building it up again always works, keeps the id, and
      leaves exactly what survives, in set order. */
  lemma NativeThroughFlat(lib: Lib, n: Native)
    requires Lawful(lib) && Sorted(lib, n.addrs)
    ensures var r := Structured(lib, Flatten(lib, n));
      && r.Success? && r.value.id == n.id && Sorted(lib, r.value.addrs)
      && (forall a :: a in r.value.addrs <==> Survives(n, a))
  {
    var f := Flatten(lib, n);
    FlattenedParses(lib, n);
    var ips := ParseAll(lib, f.direct);
    var relay := if f.relay.None? then [] else [Relay(lib.parseUrl(f.relay.value).value)];
    CollectSorted(lib, ips + relay);
    forall a
      ensures a in ips + relay <==> Survives(n, a)
    {
      assert a in ips + relay <==> a in ips || a in relay;
      if a.Ip? {
        PrintedMembers(n.addrs, ips, a.sock);
      }
    }
  }

  lemma PrintedMembers(s: seq<Transport>, ips: seq<Transport>, a: Sock)
    requires |ips| == |Ips(s)| && forall i :: 0 <= i < |ips| ==> ips[i] == Ip(Printed(Ips(s)[i]))
    ensures Ip(a) in ips <==> a.flow == 0 && exists b :: Ip(b) in s && Printed(b) == a
  {
    if Ip(a) in ips {
      var i :| 0 <= i < |ips| && ips[i] == Ip(a);
      assert Ips(s)[i] in Ips(s);
    }
    if b :| Ip(b) in s && Printed(b) == a {
      assert b in Ips(s);
      var i :| 0 <= i < |Ips(s)| && Ips(s)[i] == b;
      assert ips[i] == Ip(a);
    }
  }

  /** For addresses whose text is faithful the result is a subset; it lacks exactly the relays
      other than the first and every transport that is neither IP nor relay. */
  lemma FaithfulAddressesLoseExactly(lib: Lib, n: Native, a: Transport)
    requires Lawful(lib) && Sorted(lib, n.addrs)
    requires forall b :: b in n.addrs && b.Ip? ==> b.sock.flow == 0
    ensures var r := Structured(lib, Flatten(lib, n));
      && r.Success?
      && (a in r.value.addrs ==> a in n.addrs)
      && (a in n.addrs && a !in r.value.addrs <==>
            a in n.addrs && (a.Other? || (a.Relay? && a.url != Relays(n.addrs)[0])))
  {
    NativeThroughFlat(lib, n);
    if a.Ip? && a in n.addrs {
      assert Printed(a.sock) == a.sock;
    }
    if a.Ip? && Survives(n, a) {
      var b :| Ip(b) in n.addrs && Printed(b) == a.sock;
      assert b == Printed(b);
    }
    if a.Relay? && a in n.addrs {
      assert a.url in Relays(n.addrs);
    }
  }

  lemma LosslessIsUnchanged(lib: Lib, n: Native)
    requires Lawful(lib) && Sorted(lib, n.addrs) && Lossless(n)
    ensures Structured(lib, Flatten(lib, n)) == Success(n)
  {
    NativeThroughFlat(lib, n);
    var m := Structured(lib, Flatten(lib, n)).value;
    forall a
      ensures a in n.addrs <==> a in m.addrs
    {
      LosslessSurvives(n, a);
    }
    SortedIsUnique(lib, n.addrs, m.addrs);
  }

  lemma LosslessSurvives(n: Native, a: Transport)
    requires Lossless(n)
    ensures Survives(n, a) <==> a in n.addrs
  {
    match a
    case Ip(sock) =>
      assert a in n.addrs ==> Printed(sock) == sock;
      forall b | Ip(b) in n.addrs
        ensures Printed(b) == b
      {
      }
    case Relay(url) => assert a in n.addrs <==> url in Relays(n.addrs);
    case Other(_) =>
  }

  /** The round trip through the flat form is the identity exactly on lossless addresses. */
  lemma IdentityExactlyWhenLossless(lib: Lib, n: Native)
    requires Lawful(lib) && Sorted(lib, n.addrs)
    ensures Structured(lib, Flatten(lib, n)) == Success(n) <==> Lossless(n)
  {
    if Lossless(n) {
      LosslessIsUnchanged(lib, n);
    } else if Structured(lib, Flatten(lib, n)) == Success(n) {
      NativeThroughFlat(lib, n);
      UnchangedIsLossless(lib, n);
    }
  }

  lemma UnchangedIsLossless(lib: Lib, n: Native)
    requires Lawful(lib) && Sorted(lib, n.addrs) && forall a :: a in n.addrs ==> Survives(n, a)
    ensures Lossless(n)
  {
    forall u | u in Relays(n.addrs)
      ensures u == Relays(n.addrs)[0]
    {
      assert Survives(n, Relay(u));
    }
    if |Relays(n.addrs)| > 1 {
      TwoRelaysDiffer(lib, n.addrs);
    }
  }

  lemma {:induction false} RelaysDistinct(lib: Lib, s: seq<Transport>)
    requires TotalOrder(lib.less) && Sorted(lib, s)
    ensures forall i, j :: 0 <= i < j < |Relays(s)| ==> lib.less(Relay(Relays(s)[i]), Relay(Relays(s)[j]))
  {
    if s != [] {
      RelaysDistinct(lib, s[1..]);
      assert forall y :: y in s[1..] ==> lib.less(s[0], y);
      assert forall j :: 0 <= j < |Relays(s[1..])| ==> Relays(s[1..])[j] in Relays(s[1..]);
    }
  }

  lemma TwoRelaysDiffer(lib: Lib, s: seq<Transport>)
    requires TotalOrder(lib.less) && Sorted(lib, s) && |Relays(s)| > 1
    ensures Relays(s)[0] in Relays(s) && Relays(s)[1] in Relays(s) && Relays(s)[0] != Relays(s)[1]
  {
    RelaysDistinct(lib, s);
  }
}
