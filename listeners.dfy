/** The listener array of a path watcher: `indexOf` and `splice` as used by
    the unsubscribe function, and the `forEach` of `emit`. */
module Listeners {
  import opened Base

  /** `ls.indexOf(cb)`: the first position of `cb`, or -1. */
  function FirstIndex(ls: seq<Callback>, cb: Callback): (i: int)
    ensures -1 <= i < |ls|
    ensures i == -1 <==> cb !in ls
    ensures 0 <= i ==> ls[i] == cb && cb !in ls[..i]
  {
    if ls == [] then -1
    else if ls[0] == cb then 0
    else
      var j := FirstIndex(ls[1..], cb);
      assert ls[1..][..j + 1] == ls[1..j + 2] by { if j >= 0 { assert j + 2 <= |ls|; } }
      if j == -1 then -1 else j + 1
  }

  /** The search `indexOf` performs, front to back. */
  method IndexOf(ls: seq<Callback>, cb: Callback) returns (i: int)
    ensures i == FirstIndex(ls, cb)
  {
    var k := 0;
    while k < |ls| && ls[k] != cb
      invariant 0 <= k <= |ls|
      invariant cb !in ls[..k]
    {
      k := k + 1;
    }
    if k == |ls| {
      assert ls[..k] == ls;
      i := -1;
    } else {
      i := k;
      FirstIndexUnique(ls, cb, k);
    }
  }

  lemma {:induction false} FirstIndexUnique(ls: seq<Callback>, cb: Callback, k: nat)
    requires k < |ls| && ls[k] == cb && cb !in ls[..k]
    ensures FirstIndex(ls, cb) == k
  {
  }

  /** `ls.splice(start, 1)` on a copy: a negative start counts from the end
      and is clamped at 0, a start past the end removes nothing. */
  function SpliceOne(ls: seq<Callback>, start: int): (r: seq<Callback>)
    // a start inside the array removes exactly the element there
    ensures 0 <= start < |ls| ==> r == ls[..start] + ls[start + 1..]
    // a negative start within reach counts back from the end
    ensures -|ls| <= start < 0 ==> r == ls[..|ls| + start] + ls[|ls| + start + 1..]
    // a negative start beyond the front is clamped to the first element
    ensures start < -|ls| && ls != [] ==> r == ls[1..]
    // a start at or past the end removes nothing
    ensures start >= |ls| ==> r == ls
    // exactly one element leaves unless the array is empty or the start is past the end
    ensures |r| == if ls != [] && start < |ls| then |ls| - 1 else |ls|
  {
    var k := if start < 0 then (if |ls| + start < 0 then 0 else |ls| + start)
             else (if start > |ls| then |ls| else start);
    if k < |ls| then ls[..k] + ls[k + 1..] else ls
  }

  /** The listener array after the unsubscribe function of `cb` runs. */
  function Unsubscribed(ls: seq<Callback>, cb: Callback): (r: seq<Callback>)
    // the first registration of cb is taken out, nothing else moves
    ensures cb in ls ==>
      var k := FirstIndex(ls, cb);
      r == ls[..k] + ls[k + 1..] && multiset(r) == multiset(ls) - multiset{cb}
    // cb is gone already: splice(-1, 1) takes out the LAST listener instead
    ensures cb !in ls ==> r == if ls == [] then [] else ls[..|ls| - 1]
  {
    var i := FirstIndex(ls, cb);
    assert 0 <= i ==> ls == ls[..i] + [cb] + ls[i + 1..];
    SpliceOne(ls, i)
  }

  /** Calling one unsubscribe function twice removes its own callback and
      then the last listener of whoever else is subscribed. */
  lemma SecondUnsubscribeRemovesAnother(ls: seq<Callback>, cb: Callback)
    requires multiset(ls)[cb] == 1 && |ls| >= 2
    ensures var once := Unsubscribed(ls, cb);
            Unsubscribed(once, cb) == once[..|once| - 1] &&
            |Unsubscribed(once, cb)| == |ls| - 2 &&
            once[|once| - 1] != cb
  {
    var once := Unsubscribed(ls, cb);
    assert cb in multiset(ls);
    assert multiset(once)[cb] == 0;
    assert cb !in once;
    assert |multiset(once)| == |ls| - 1;
  }

  /** The deliveries of one `emit`: every listener, in array order, gets
      the same event. */
  function Broadcast(ls: seq<Callback>, ev: Event): (ds: seq<Delivery>)
    ensures |ds| == |ls|
    ensures forall i :: 0 <= i < |ls| ==> ds[i].listener == ls[i] && ds[i].event == ev
  {
    if ls == [] then [] else [Delivery(ls[0], ev)] + Broadcast(ls[1..], ev)
  }

  /** The `forEach` loop of `emit`. */
  method Notify(ls: seq<Callback>, ev: Event) returns (ds: seq<Delivery>)
    ensures ds == Broadcast(ls, ev)
  {
    ds := [];
    var i := 0;
    while i < |ls|
      invariant 0 <= i <= |ls|
      invariant ds == Broadcast(ls[..i], ev)
    {
      BroadcastSnoc(ls[..i], ls[i], ev);
      assert ls[..i + 1] == ls[..i] + [ls[i]];
      ds := ds + [Delivery(ls[i], ev)];
      i := i + 1;
    }
    assert ls[..i] == ls;
  }

  lemma BroadcastSnoc(ls: seq<Callback>, cb: Callback, ev: Event)
    ensures Broadcast(ls + [cb], ev) == Broadcast(ls, ev) + [Delivery(cb, ev)]
  {
  }
}
