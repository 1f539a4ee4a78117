/** Types shared by every module of the model. */
module Prelude {

  newtype Byte = x: int | 0 <= x < 256

  type Bytes = seq<Byte>

  datatype Option<+T> = None | Some(value: T)

  datatype Result<+T, +E> = Success(value: T) | Failure(error: E)

  /** QUIC variable-length integers stop below 2^62 (section 16 of RFC 9000). */
  const VARINT_LIMIT: nat := 0x4000_0000_0000_0000

  predicate Ascending(s: seq<nat>) {
    forall i, j :: 0 <= i < j < |s| ==> s[i] < s[j]
  }

  function Last<T>(s: seq<T>): T
    requires s != []
  {
    s[|s| - 1]
  }

  function Front<T>(s: seq<T>): seq<T>
    requires s != []
  {
    s[..|s| - 1]
  }

  /** The parts of the listed calls, one after the other. */
  function Joined(part: nat -> Bytes, order: seq<nat>): Bytes {
    if order == [] then [] else Joined(part, Front(order)) + part(Last(order))
  }

  lemma {:induction false} JoinedFrame(before: nat -> Bytes, after: nat -> Bytes, order: seq<nat>)
    requires forall i :: i in order ==> before(i) == after(i)
    ensures Joined(before, order) == Joined(after, order)
  {
    if order != [] {
      assert Last(order) in order;
      assert forall i :: i in Front(order) ==> i in order;
      JoinedFrame(before, after, Front(order));
    }
  }

  /** The part listed at position p sits in one piece, right after the parts listed before it. */
  lemma {:induction false} JoinedSplit(part: nat -> Bytes, order: seq<nat>, p: nat)
    requires p < |order|
    ensures Joined(part, order[..p]) + part(order[p]) <= Joined(part, order)
  {
    if p == |order| - 1 {
      assert order[..p] == Front(order);
    } else {
      JoinedSplit(part, Front(order), p);
      assert Front(order)[..p] == order[..p];
    }
  }

  /** Growing the part of the last listed call grows the whole by as much. */
  lemma JoinedGrow(before: nat -> Bytes, after: nat -> Bytes, order: seq<nat>, chunk: Bytes)
    requires order != [] && Ascending(order)
    requires forall i :: i in Front(order) ==> before(i) == after(i)
    requires after(Last(order)) == before(Last(order)) + chunk
    ensures Joined(after, order) == Joined(before, order) + chunk
  {
    JoinedFrame(before, after, Front(order));
  }

  function Sum(f: nat -> nat, n: nat): nat {
    if n == 0 then 0 else Sum(f, n - 1) + f(n - 1)
  }

  lemma {:induction false} SumFrame(f: nat -> nat, g: nat -> nat, n: nat)
    requires forall j: nat :: j < n ==> f(j) == g(j)
    ensures Sum(f, n) == Sum(g, n)
  {
    if n > 0 {
      SumFrame(f, g, n - 1);
    }
  }

  lemma {:induction false} SumUpdate(f: nat -> nat, g: nat -> nat, n: nat, i: nat)
    requires i < n && forall j: nat :: j < n && j != i ==> f(j) == g(j)
    ensures Sum(g, n) == Sum(f, n) - f(i) + g(i)
  {
    if i == n - 1 {
      SumFrame(f, g, n - 1);
    } else {
      SumUpdate(f, g, n - 1, i);
    }
  }

  lemma {:induction false} SumZero(f: nat -> nat, n: nat)
    ensures Sum(f, n) == 0 <==> forall j: nat :: j < n ==> f(j) == 0
  {
    if n > 0 {
      SumZero(f, n - 1);
    }
  }

  lemma {:induction false} SumPair(f: nat -> nat, n: nat, i: nat, j: nat)
    requires i < n && j < n
    ensures f(i) <= Sum(f, n)
    ensures i != j ==> f(i) + f(j) <= Sum(f, n)
  {
    if i < n - 1 && j < n - 1 {
      SumPair(f, n - 1, i, j);
    } else if i < n - 1 {
      SumPair(f, n - 1, i, i);
    } else if j < n - 1 {
      SumPair(f, n - 1, j, j);
    }
  }

  function Count(s: seq<nat>, x: nat): nat {
    if s == [] then 0 else Count(Front(s), x) + (if Last(s) == x then 1 else 0)
  }

  lemma {:induction false} CountAppend(s: seq<nat>, t: seq<nat>, x: nat)
    ensures Count(s + t, x) == Count(s, x) + Count(t, x)
  {
    if t == [] {
      assert s + t == s;
    } else {
      assert Front(s + t) == s + Front(t);
      CountAppend(s, Front(t), x);
    }
  }

  lemma {:induction false} CountMember(s: seq<nat>, x: nat)
    ensures x in s <==> Count(s, x) > 0
  {
    if s != [] {
      CountMember(Front(s), x);
      assert x in s <==> x in Front(s) || x == Last(s);
    }
  }
}
