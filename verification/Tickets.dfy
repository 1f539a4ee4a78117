/** Normalising flat addresses, and the ticket functions built on the two conversions. */
module Tickets {
  import opened Prelude
  import opened Addresses

  /** Flat to native to flat. */
  function Normalised(lib: Lib, f: Flat): Result<Flat, Error> {
    match Structured(lib, f)
    case Failure(e) => Failure(e)
    case Success(n) => Success(Flatten(lib, n))
  }

  predicate WellFormed(lib: Lib, f: Flat) {
    && lib.parseId(f.id).Some?
    && (forall i :: 0 <= i < |f.direct| ==> Parses(lib, f.direct[i]))
    && (f.relay.Some? ==> lib.parseUrl(f.relay.value).Some?)
  }

  /** What a list of texts denotes, as a set. */
  function Denotes(lib: Lib, texts: seq<string>): set<Option<Sock>> {
    set t | t in texts :: lib.parseSock(t)
  }

  /** An address built from its flat form has nothing flattening could lose. */
  lemma BuiltIsLossless(lib: Lib, f: Flat)
    requires Lawful(lib) && Structured(lib, f).Success?
    ensures Sorted(lib, Structured(lib, f).value.addrs) && Lossless(Structured(lib, f).value)
  {
    var n := Structured(lib, f).value;
    var ips := ParseAll(lib, f.direct);
    var relay := if f.relay.None? then [] else [Relay(lib.parseUrl(f.relay.value).value)];
    CollectSorted(lib, ips + relay);
    assert forall a :: a in n.addrs <==> a in ips || a in relay;
    forall u | u in Relays(n.addrs)
      ensures relay == [Relay(u)]
    {
      assert Relay(u) in n.addrs;
    }
    if |Relays(n.addrs)| > 1 {
      TwoRelaysDiffer(lib, n.addrs);
    }
  }

  /** Building fails exactly when the id, some direct address or the relay does not parse, and
      names the first of them in that order. */
  lemma FailsExactlyWhenMalformed(lib: Lib, f: Flat)
    ensures Normalised(lib, f).Success? <==> WellFormed(lib, f)
    ensures Normalised(lib, f) == Failure(BadId) <==> lib.parseId(f.id).None?
    ensures Normalised(lib, f) == Failure(BadRelay) <==>
      lib.parseId(f.id).Some? && (forall i :: 0 <= i < |f.direct| ==> Parses(lib, f.direct[i]))
      && f.relay.Some? && lib.parseUrl(f.relay.value).None?
    ensures forall k: nat :: Normalised(lib, f) == Failure(BadAddress(k)) <==>
      lib.parseId(f.id).Some? && k < |f.direct| && !Parses(lib, f.direct[k]) && forall i :: 0 <= i < k ==> Parses(lib, f.direct[i])
  {
    var bad := FirstBad(lib, f.direct);
    assert bad < |f.direct| ==> !Parses(lib, f.direct[bad]);
  }

  /** The normal form keeps the id, the relay and the set of direct addresses, and lists the
      addresses once each, in set order. */
  lemma NormalFormKeepsTheAddress(lib: Lib, f: Flat)
    requires Lawful(lib) && WellFormed(lib, f)
    ensures var r := Normalised(lib, f).value;
      && Normalised(lib, f).Success?
      && lib.parseId(r.id) == lib.parseId(f.id)
      && (r.relay.Some? <==> f.relay.Some?)
      && (r.relay.Some? ==> lib.parseUrl(r.relay.value) == lib.parseUrl(f.relay.value))
      && Denotes(lib, r.direct) == Denotes(lib, f.direct)
      && (forall i :: 0 <= i < |r.direct| ==> Parses(lib, r.direct[i]))
      && Sorted(lib, ParseAll(lib, r.direct))
  {
    FailsExactlyWhenMalformed(lib, f);
    BuiltIsLossless(lib, f);
    var n := Structured(lib, f).value;
    FlattenedParses(lib, n);
    RelayIsKept(lib, f);
    IpsAreKept(lib, f);
    PrintedInOrder(lib, n);
  }

  lemma RelayIsKept(lib: Lib, f: Flat)
    requires Structured(lib, f).Success?
    ensures var relays := Relays(Structured(lib, f).value.addrs);
      if f.relay.None? then relays == []
      else relays != [] && relays[0] == lib.parseUrl(f.relay.value).value
  {
    var n := Structured(lib, f).value;
    var ips := ParseAll(lib, f.direct);
    var relay := if f.relay.None? then [] else [Relay(lib.parseUrl(f.relay.value).value)];
    assert forall a :: a in n.addrs <==> a in ips || a in relay;
    var relays := Relays(n.addrs);
    if f.relay.Some? {
      assert relay[0] in n.addrs;
      assert relay[0].url in relays;
    }
    if relays != [] {
      assert relays[0] in relays;
      assert Relay(relays[0]) in n.addrs;
    }
  }

  /** The IP part of a built address is what its texts denote. */
  lemma BuiltIps(lib: Lib, f: Flat, a: Sock)
    requires Lawful(lib) && Structured(lib, f).Success?
    ensures Ip(a) in Structured(lib, f).value.addrs <==> Some(a) in Denotes(lib, f.direct)
  {
    var ips := ParseAll(lib, f.direct);
    var relay := if f.relay.None? then [] else [Relay(lib.parseUrl(f.relay.value).value)];
    assert Ip(a) in Structured(lib, f).value.addrs <==> Ip(a) in ips;
    if Ip(a) in ips {
      var j :| 0 <= j < |ips| && ips[j] == Ip(a);
      assert f.direct[j] in f.direct && Parses(lib, f.direct[j]);
    }
    if Some(a) in Denotes(lib, f.direct) {
      var j :| 0 <= j < |f.direct| && lib.parseSock(f.direct[j]) == Some(a);
      assert ips[j] == Ip(a);
    }
  }

  /** The texts of a lossless address denote its IP part. */
  lemma PrintedIps(lib: Lib, n: Native, a: Sock)
    requires Lawful(lib) && Lossless(n)
    ensures Ip(a) in n.addrs <==> Some(a) in Denotes(lib, Flatten(lib, n).direct)
  {
    var d := Flatten(lib, n).direct;
    var socks := Ips(n.addrs);
    forall i | 0 <= i < |socks|
      ensures lib.parseSock(d[i]) == Some(socks[i])
    {
      assert socks[i] in socks;
      assert Ip(socks[i]) in n.addrs;
      assert Printed(socks[i]) == socks[i];
    }
    if a in socks {
      var i :| 0 <= i < |socks| && socks[i] == a;
      assert d[i] in d;
    }
    if Some(a) in Denotes(lib, d) {
      var i :| 0 <= i < |d| && lib.parseSock(d[i]) == Some(a);
    }
  }

  lemma IpsAreKept(lib: Lib, f: Flat)
    requires Lawful(lib) && WellFormed(lib, f) && Structured(lib, f).Success?
    ensures Denotes(lib, Flatten(lib, Structured(lib, f).value).direct) == Denotes(lib, f.direct)
  {
    var n := Structured(lib, f).value;
    var g := Flatten(lib, n);
    BuiltIsLossless(lib, f);
    FlattenedParses(lib, n);
    forall o: Option<Sock>
      ensures o in Denotes(lib, g.direct) <==> o in Denotes(lib, f.direct)
    {
      if o.Some? {
        BuiltIps(lib, f, o.value);
        PrintedIps(lib, n, o.value);
      } else {
        assert forall i :: 0 <= i < |f.direct| ==> Parses(lib, f.direct[i]);
        assert forall i :: 0 <= i < |g.direct| ==> Parses(lib, g.direct[i]);
      }
    }
  }

  lemma {:induction false} IpsSorted(lib: Lib, s: seq<Transport>)
    requires Sorted(lib, s)
    ensures forall i, j :: 0 <= i < j < |Ips(s)| ==> lib.less(Ip(Ips(s)[i]), Ip(Ips(s)[j]))
  {
    if s != [] {
      IpsSorted(lib, s[1..]);
      assert forall y :: y in s[1..] ==> lib.less(s[0], y);
      assert forall j :: 0 <= j < |Ips(s[1..])| ==> Ips(s[1..])[j] in Ips(s[1..]);
    }
  }

  lemma PrintedInOrder(lib: Lib, n: Native)
    requires Lawful(lib) && Lossless(n) && Sorted(lib, n.addrs)
    ensures var d := Flatten(lib, n).direct;
      && (forall i :: 0 <= i < |d| ==> Parses(lib, d[i]))
      && Sorted(lib, ParseAll(lib, d))
  {
    var d := Flatten(lib, n).direct;
    var socks := Ips(n.addrs);
    IpsSorted(lib, n.addrs);
    forall i | 0 <= i < |d|
      ensures Parses(lib, d[i]) && Denoted(lib, d[i]) == Ip(socks[i])
    {
      assert socks[i] in socks;
      assert Ip(socks[i]) in n.addrs;
      assert Printed(socks[i]) == socks[i];
    }
  }

  /** Normalising is idempotent: a normal form is its own normal form. */
  lemma NormalisingIsIdempotent(lib: Lib, f: Flat)
    requires Lawful(lib) && Normalised(lib, f).Success?
    ensures Normalised(lib, Normalised(lib, f).value) == Normalised(lib, f)
  {
    BuiltIsLossless(lib, f);
    IdentityExactlyWhenLossless(lib, Structured(lib, f).value);
  }

  /** Every text of a flat address is the one the library prints for what it denotes, and the
      direct addresses are in set order, once each. */
  predicate Normal(lib: Lib, f: Flat) {
    && WellFormed(lib, f)
    && f.id == lib.printId(lib.parseId(f.id).value)
    && (f.relay.Some? ==> f.relay.value == lib.printUrl(lib.parseUrl(f.relay.value).value))
    && (forall i :: 0 <= i < |f.direct| ==> f.direct[i] == lib.printSock(lib.parseSock(f.direct[i]).value))
    && Sorted(lib, ParseAll(lib, f.direct))
  }

  function AsTransports(socks: seq<Sock>): (r: seq<Transport>)
    ensures |r| == |socks| && forall i :: 0 <= i < |r| ==> r[i] == Ip(socks[i])
  {
    seq(|socks|, i requires 0 <= i < |socks| => Ip(socks[i]))
  }

  /** The IP part of an address built from ordered texts lists what they denote, in their order. */
  lemma OrderedTextsStayInOrder(lib: Lib, f: Flat)
    requires Lawful(lib) && WellFormed(lib, f) && Structured(lib, f).Success? && Sorted(lib, ParseAll(lib, f.direct))
    ensures AsTransports(Ips(Structured(lib, f).value.addrs)) == ParseAll(lib, f.direct)
  {
    var n := Structured(lib, f).value;
    var socks := Ips(n.addrs);
    var listed := AsTransports(socks);
    var ips := ParseAll(lib, f.direct);
    BuiltIsLossless(lib, f);
    IpsSorted(lib, n.addrs);
    forall a
      ensures a in listed <==> a in ips
    {
      if a in listed {
        var i :| 0 <= i < |listed| && listed[i] == a;
        assert socks[i] in socks;
        assert a in n.addrs && a in ips;
      }
      if a in ips {
        var i :| 0 <= i < |ips| && ips[i] == a;
        assert a in n.addrs && a.sock in socks;
        var j :| 0 <= j < |socks| && socks[j] == a.sock;
        assert listed[j] == a;
      }
    }
    SortedIsUnique(lib, listed, ips);
  }

  /** Printing what texts in printed form denote gives the texts. */
  lemma PrintingUndoesParsing(lib: Lib, texts: seq<string>, socks: seq<Sock>)
    requires |socks| == |texts|
    requires forall i :: 0 <= i < |texts| ==> lib.parseSock(texts[i]) == Some(socks[i]) && texts[i] == lib.printSock(socks[i])
    ensures PrintAll(lib, socks) == texts
  {
  }

  lemma DirectTextsComeBack(lib: Lib, f: Flat)
    requires Lawful(lib) && Normal(lib, f) && Structured(lib, f).Success?
    ensures Flatten(lib, Structured(lib, f).value).direct == f.direct
  {
    var socks := Ips(Structured(lib, f).value.addrs);
    var listed := AsTransports(socks);
    OrderedTextsStayInOrder(lib, f);
    forall i | 0 <= i < |f.direct|
      ensures lib.parseSock(f.direct[i]) == Some(socks[i])
    {
      assert listed[i] == Denoted(lib, f.direct[i]);
    }
    PrintingUndoesParsing(lib, f.direct, socks);
  }

  lemma NormalIsFixed(lib: Lib, f: Flat)
    requires Lawful(lib) && Normal(lib, f)
    ensures Normalised(lib, f) == Success(f)
  {
    FailsExactlyWhenMalformed(lib, f);
    RelayIsKept(lib, f);
    DirectTextsComeBack(lib, f);
  }

  lemma FixedIsNormal(lib: Lib, f: Flat)
    requires Lawful(lib) && Normalised(lib, f) == Success(f)
    ensures Normal(lib, f)
  {
    FailsExactlyWhenMalformed(lib, f);
    NormalFormKeepsTheAddress(lib, f);
    BuiltIsLossless(lib, f);
    var n := Structured(lib, f).value;
    FlattenedParses(lib, n);
    RelayIsKept(lib, f);
    forall i | 0 <= i < |f.direct|
      ensures f.direct[i] == lib.printSock(lib.parseSock(f.direct[i]).value)
    {
      assert Ips(n.addrs)[i] in Ips(n.addrs);
      assert Ip(Ips(n.addrs)[i]) in n.addrs;
      assert Printed(Ips(n.addrs)[i]) == Ips(n.addrs)[i];
    }
  }

  /** Flat to native to flat is the identity exactly on flat addresses in normal form. */
  lemma FixedExactlyWhenNormal(lib: Lib, f: Flat)
    requires Lawful(lib)
    ensures Normalised(lib, f) == Success(f) <==> Normal(lib, f)
  {
    if Normal(lib, f) {
      NormalIsFixed(lib, f);
    } else if Normalised(lib, f) == Success(f) {
      FixedIsNormal(lib, f);
    }
  }

  // ------------------------------------------------------------------- tickets

  /** The ticket format, as text and as raw bytes. */
  datatype Format = Format(
    toText: Native -> string, fromText: string -> Option<Native>,
    toBytes: Native -> Bytes, fromBytes: Bytes -> Option<Native>)

  /** Assumptions: decoding undoes encoding, and decoded address sets are ordered sets. */
  ghost predicate SoundFormat(lib: Lib, format: Format) {
    && (forall n: Native :: Sorted(lib, n.addrs) ==> format.fromText(format.toText(n)) == Some(n))
    && (forall n: Native :: Sorted(lib, n.addrs) ==> format.fromBytes(format.toBytes(n)) == Some(n))
    && (forall t :: format.fromText(t).Some? ==> Sorted(lib, format.fromText(t).value.addrs))
    && (forall b :: format.fromBytes(b).Some? ==> Sorted(lib, format.fromBytes(b).value.addrs))
  }

  function EndpointAddrFromTicket(lib: Lib, format: Format, ticket: string): Result<Flat, Error> {
    match format.fromText(ticket)
    case None => Failure(BadTicket)
    case Some(n) => Success(Flatten(lib, n))
  }

  function TicketFromEndpointAddr(lib: Lib, format: Format, f: Flat): Result<string, Error> {
    match Structured(lib, f)
    case Failure(e) => Failure(e)
    case Success(n) => Success(format.toText(n))
  }

  function EndpointIdFromTicket(lib: Lib, format: Format, ticket: string): Result<string, Error> {
    match format.fromText(ticket)
    case None => Failure(BadTicket)
    case Some(n) => Success(lib.printId(n.id))
  }

  function TicketBytes(format: Format, ticket: string): Result<Bytes, Error> {
    match format.fromText(ticket)
    case None => Failure(BadTicket)
    case Some(n) => Success(format.toBytes(n))
  }

  function TicketFromBytes(format: Format, bytes: Bytes): Result<string, Error> {
    match format.fromBytes(bytes)
    case None => Failure(BadTicket)
    case Some(n) => Success(format.toText(n))
  }

  /** The address `connect_conn` and `connect_addr` hand to the library to dial. */
  function ConnectConnTarget(format: Format, ticket: string): Result<Native, Error> {
    match format.fromText(ticket)
    case None => Failure(BadTicket)
    case Some(n) => Success(n)
  }

  function ConnectAddrTarget(lib: Lib, f: Flat): Result<Native, Error> {
    Structured(lib, f)
  }

  /** Flat to ticket to flat is the normaliser, errors included. */
  lemma TicketRoundTripNormalises(lib: Lib, format: Format, f: Flat)
    requires Lawful(lib) && SoundFormat(lib, format)
    ensures match TicketFromEndpointAddr(lib, format, f)
      case Failure(e) => Normalised(lib, f) == Failure(e)
      case Success(ticket) => EndpointAddrFromTicket(lib, format, ticket) == Normalised(lib, f)
  {
    if Structured(lib, f).Success? {
      BuiltIsLossless(lib, f);
    }
  }

  /** Ticket to flat to ticket always yields a ticket for the same endpoint; it decodes to the
      same address - and dialling by the flat form dials the same target as dialling by the
      ticket - exactly when the address is lossless; and it is the very same text exactly when,
      besides, the ticket was in the encoder's own form. */
  lemma FlatRoundTripKeepsLosslessTickets(lib: Lib, format: Format, ticket: string)
    requires Lawful(lib) && SoundFormat(lib, format) && format.fromText(ticket).Some?
    ensures var n := format.fromText(ticket).value;
      var f := EndpointAddrFromTicket(lib, format, ticket);
      var back := if f.Success? then TicketFromEndpointAddr(lib, format, f.value) else Failure(BadTicket);
      && f.Success? && back.Success?
      && ConnectAddrTarget(lib, f.value).Success? && ConnectAddrTarget(lib, f.value).value.id == n.id
      && (format.fromText(back.value) == Some(n) <==> Lossless(n))
      && (ConnectAddrTarget(lib, f.value) == ConnectConnTarget(format, ticket) <==> Lossless(n))
      && (back.value == ticket <==> Lossless(n) && ticket == format.toText(n))
  {
    var n := format.fromText(ticket).value;
    NativeThroughFlat(lib, n);
    IdentityExactlyWhenLossless(lib, n);
    var m := Structured(lib, Flatten(lib, n)).value;
    assert format.fromText(format.toText(m)) == Some(m);
  }

  lemma TwoRelays(first: Url, second: Url)
    ensures Relays([Relay(first), Relay(second)]) == [first, second]
  {
    var s := [Relay(first), Relay(second)];
    assert s[1..] == [Relay(second)] && s[1..][1..] == [];
    assert Relays(s[1..]) == [second];
  }

  /** A ticket that does not come back: an address with the two relays "a" and "b". Its flat form
      names one of them, and the ticket made from that is another ticket, for another address. */
  lemma TwoRelayTicketDoesNotComeBack(lib: Lib, format: Format, id: Id) returns (n: Native)
    requires Lawful(lib) && SoundFormat(lib, format)
    ensures |n.addrs| == 2 && Relay("a") in n.addrs && Relay("b") in n.addrs && n.id == id && Sorted(lib, n.addrs)
    ensures var ticket := format.toText(n);
      var f := EndpointAddrFromTicket(lib, format, ticket);
      && f.Success?
      && TicketFromEndpointAddr(lib, format, f.value).Success?
      && TicketFromEndpointAddr(lib, format, f.value).value != ticket
      && format.fromText(TicketFromEndpointAddr(lib, format, f.value).value) != Some(n)
  {
    assert "a"[0] != "b"[0];
    var first, second := "a", "b";
    if lib.less(Relay(second), Relay(first)) {
      first, second := second, first;
    }
    n := Native(id, [Relay(first), Relay(second)]);
    TwoRelays(first, second);
    FlatRoundTripKeepsLosslessTickets(lib, format, format.toText(n));
  }

  /** The id read off a ticket is the id of its structured form, and both fail together. */
  lemma IdAgreesWithStructuredForm(lib: Lib, format: Format, ticket: string)
    ensures match EndpointAddrFromTicket(lib, format, ticket)
      case Failure(e) => EndpointIdFromTicket(lib, format, ticket) == Failure(e)
      case Success(f) => EndpointIdFromTicket(lib, format, ticket) == Success(f.id)
  {
  }

  /** Through raw bytes and back a ticket keeps its meaning, and its text exactly when it was in
      the encoder's own form; likewise bytes through text. */
  lemma BytesRoundTrip(lib: Lib, format: Format, ticket: string, bytes: Bytes)
    requires SoundFormat(lib, format)
    ensures TicketBytes(format, ticket).Success? ==>
      var back := TicketFromBytes(format, TicketBytes(format, ticket).value);
      && back.Success?
      && format.fromText(back.value) == format.fromText(ticket)
      && (back.value == ticket <==> ticket == format.toText(format.fromText(ticket).value))
    ensures TicketFromBytes(format, bytes).Success? ==>
      var back := TicketBytes(format, TicketFromBytes(format, bytes).value);
      && back.Success?
      && format.fromBytes(back.value) == format.fromBytes(bytes)
      && (back.value == bytes <==> bytes == format.toBytes(format.fromBytes(bytes).value))
  {
    if format.fromText(ticket).Some? {
      var n := format.fromText(ticket).value;
      assert format.fromBytes(format.toBytes(n)) == Some(n) && format.fromText(format.toText(n)) == Some(n);
    }
    if format.fromBytes(bytes).Some? {
      var n := format.fromBytes(bytes).value;
      assert format.fromBytes(format.toBytes(n)) == Some(n) && format.fromText(format.toText(n)) == Some(n);
    }
  }
}
