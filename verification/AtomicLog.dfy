/** The simple system the chunked, lock-based one is meant to look like: a log to which whole
    messages are appended in one step, and from which a reader takes bytes in order. At most
    one message - the last - is not settled yet; if its call does not return, it is cut short. The
    reader is told of the end only when it has read every message of a closed log. */
module AtomicLog {
  import opened Prelude

  datatype Ending = Open | Finished | Reset

  datatype Log = Log(entries: seq<Bytes>, unsettled: bool, ending: Ending, read: Bytes)

  datatype Action =
    | Append(message: Bytes)
    | Settle
    | Tear(k: nat)
    | Finish
    | DoReset
    | Read(chunk: Bytes)
    | End  // the reader is told that there is nothing more

  const EMPTY := Log([], false, Open, [])

  function All(entries: seq<Bytes>): Bytes {
    if entries == [] then [] else All(Front(entries)) + Last(entries)
  }

  predicate Step(a: Log, act: Action, b: Log) {
    match act
    case Append(m) =>
      a.ending == Open && !a.unsettled && m != [] && b == a.(entries := a.entries + [m], unsettled := true)
    case Settle => a.unsettled && b == a.(unsettled := false)
    case Tear(k) =>
      && a.unsettled && a.entries != [] && 0 < k < |Last(a.entries)|
      && b == a.(entries := Front(a.entries) + [Last(a.entries)[..k]], unsettled := false)
      && a.read <= All(b.entries)
    case Finish => a.ending == Open && !a.unsettled && b == a.(ending := Finished)
    case DoReset => a.ending != Reset && !a.unsettled && b == a.(ending := Reset)
    case Read(chunk) => b == a.(read := a.read + chunk) && b.read <= All(a.entries)
    case End => a.ending != Open && !a.unsettled && a.read == All(a.entries) && b == a
  }

  ghost predicate Run(a: Log, acts: seq<Action>, b: Log)
    decreases |acts|
  {
    if acts == [] then a == b
    else exists mid :: Step(a, acts[0], mid) && Run(mid, acts[1..], b)
  }

  /** The entries nothing can change any more. */
  function Settled(a: Log): seq<Bytes> {
    if a.unsettled && a.entries != [] then Front(a.entries) else a.entries
  }

  /** Over any run of the log: settled messages stay as they are, reads only ever grow, a
      finished or reset log takes no further message. */
  lemma {:induction false} SettledMessagesStay(a: Log, acts: seq<Action>, b: Log)
    requires Run(a, acts, b)
    ensures Settled(a) <= b.entries && a.read <= b.read
    ensures a.ending != Open && !a.unsettled ==> b.entries == a.entries
    decreases |acts|
  {
    if acts != [] {
      var mid :| Step(a, acts[0], mid) && Run(mid, acts[1..], b);
      SettledMessagesStay(mid, acts[1..], b);
      assert Settled(a) <= Settled(mid);
    }
  }

  /** Being told of the end is final: whatever happens to the log afterwards, no message is added
      or cut short and nothing more is read. */
  lemma {:induction false} EndIsFinal(a: Log, acts: seq<Action>, b: Log)
    requires Step(a, End, a) && Run(a, acts, b)
    ensures b.entries == a.entries && b.read == a.read && b.ending != Open
    decreases |acts|
  {
    if acts != [] {
      var mid :| Step(a, acts[0], mid) && Run(mid, acts[1..], b);
      assert mid.read == a.read;
      EndIsFinal(mid, acts[1..], b);
    }
  }
}
