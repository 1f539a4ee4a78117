/** The fair asynchronous mutex each stream half sits behind. Waiters are served in the
    order they asked; a waiter or the holder may also walk away (its future is dropped), which
    is the only other way out. `granted` is a history of who has ever held the lock, in order. */
module FifoLock {
  import opened Prelude

  datatype Lock = Lock(holder: Option<nat>, queue: seq<nat>, granted: seq<nat>)

  const FREE := Lock(None, [], [])

  /** Tickets are handed out in increasing order below `bound`. */
  ghost predicate Valid(l: Lock, bound: nat) {
    && Ascending(l.granted)
    && Ascending(l.queue)
    && (forall g, q :: g in l.granted && q in l.queue ==> g < q)
    && (forall g :: g in l.granted ==> g < bound)
    && (forall q :: q in l.queue ==> q < bound)
    && (l.holder.Some? ==> l.granted != [] && Last(l.granted) == l.holder.value)
  }

  function Enqueue(l: Lock, ticket: nat): Lock {
    l.(queue := l.queue + [ticket])
  }

  predicate CanGrant(l: Lock) {
    l.holder.None? && l.queue != []
  }

  function Grant(l: Lock): Lock
    requires CanGrant(l)
  {
    Lock(Some(l.queue[0]), l.queue[1..], l.granted + [l.queue[0]])
  }

  function Without(q: seq<nat>, ticket: nat): (r: seq<nat>)
    ensures forall x :: x in r <==> x in q && x != ticket
    ensures Ascending(q) ==> Ascending(r)
  {
    if q == [] then []
    else if q[0] == ticket then Without(q[1..], ticket)
    else
      var rest := Without(q[1..], ticket);
      assert forall j :: 0 <= j < |rest| ==> rest[j] in q[1..];
      [q[0]] + rest
  }

  /** Dropping the guard, or dropping a future that is still waiting for it. */
  function Leave(l: Lock, ticket: nat): Lock {
    if l.holder == Some(ticket) then l.(holder := None)
    else l.(queue := Without(l.queue, ticket))
  }

  lemma EnqueueValid(l: Lock, bound: nat)
    requires Valid(l, bound)
    ensures Valid(Enqueue(l, bound), bound + 1)
  {
    var q := l.queue + [bound];
    forall i, j | 0 <= i < j < |q|
      ensures q[i] < q[j]
    {
      assert l.queue[i] in l.queue;
    }
  }

  lemma GrantValid(l: Lock, bound: nat)
    requires Valid(l, bound) && CanGrant(l)
    ensures Valid(Grant(l), bound)
    ensures l.queue[0] < bound && l.queue[0] !in l.granted && l.queue[0] !in Grant(l).queue
  {
    var g := Grant(l);
    assert l.queue[0] in l.queue;
    assert forall x :: x in g.queue ==> x in l.queue;
    assert forall i :: 0 <= i < |l.granted| ==> l.granted[i] in l.granted;
    forall x | x in g.queue
      ensures l.queue[0] < x
    {
      var i :| 0 <= i < |g.queue| && g.queue[i] == x;
      assert l.queue[i + 1] == x;
    }
  }

  lemma LeaveValid(l: Lock, ticket: nat, bound: nat)
    requires Valid(l, bound)
    ensures Valid(Leave(l, ticket), bound)
  {
  }

  lemma HolderIsLatest(l: Lock, bound: nat)
    requires Valid(l, bound) && l.holder.Some?
    ensures l.holder.value in l.granted && l.holder.value !in Front(l.granted)
  {
  }
}
