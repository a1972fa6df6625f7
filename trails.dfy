/**
 * The motion trails of rockets and sparks: a JavaScript array that each update
 * extends with `push` and then, when it has grown past its cap, shortens once
 * with `shift`, so it behaves as a bounded first-in first-out queue.
 */
module Trails {

  /** One remembered position, with the fade budget `life` given at push time. */
  datatype TrailPoint = TrailPoint(x: real, y: real, life: int)

  /** `trail.push(x); if (trail.length > cap) trail.shift();` */
  function Pushed<T>(q: seq<T>, x: T, cap: nat): (r: seq<T>)
    ensures |r| == if |q| < cap then |q| + 1 else |q|
    ensures r == (q + [x])[|q| + 1 - |r|..]
    ensures |q| <= cap ==> |r| <= cap
  {
    if |q| + 1 > cap then (q + [x])[1..] else q + [x]
  }

  /** The newest entry is the one pushed, and the entry evicted from a full queue is its oldest. */
  lemma PushedEnds<T>(q: seq<T>, x: T, cap: nat)
    requires q != [] || cap > 0
    ensures var r := Pushed(q, x, cap);
      && r != [] && r[|r| - 1] == x
      && (|q| >= cap ==> r == q[1..] + [x])
      && (|q| < cap ==> r[..|q|] == q)
  {
  }

  /** Every entry of the new queue is the pushed one or an entry of the old queue. */
  lemma PushedFrom<T>(q: seq<T>, x: T, cap: nat, P: T -> bool)
    requires P(x) && forall i :: 0 <= i < |q| ==> P(q[i])
    ensures var r := Pushed(q, x, cap); forall i :: 0 <= i < |r| ==> P(r[i])
  {
    var r := Pushed(q, x, cap);
    forall i | 0 <= i < |r|
      ensures P(r[i])
    {
      var k := |q| + 1 - |r| + i;
      assert r[i] == (q + [x])[k];
    }
  }
}
