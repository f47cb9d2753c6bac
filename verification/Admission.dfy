/** The bound on the worker fleet: whether one more Pod may be made, and which Pods go when late ones exceed it. */
module Admission {
  import opened PodLifecycle

  /** The worker Pods of a deployment, in the order of the listing. */
  function Workers(inventory: seq<Pod>, deployment: string): (r: seq<Pod>)
    ensures forall p :: p in r <==> p in Fleet(inventory, deployment)
  {
    if inventory == [] then []
    else
      var rest, p := Workers(inventory[..|inventory| - 1], deployment), inventory[|inventory| - 1];
      if p.scope.deployment == deployment && p.scope.round != "gateway" then rest + [p] else rest
  }

  /** Who goes first: dormant Pods before active ones, then newer starts, then smaller identities. */
  predicate GoesBefore(p: Pod, q: Pod) {
    if (p.lifecycle == Active) != (q.lifecycle == Active) then q.lifecycle == Active
    else if p.epoch != q.epoch then p.epoch > q.epoch
    else p.id <= q.id
  }

  predicate Ordered(pods: seq<Pod>) {
    forall i, j :: 0 <= i < j < |pods| ==> GoesBefore(pods[i], pods[j])
  }

  /** The pods, each once, in the order in which they go. */
  ghost predicate SortedFrom(sorted: seq<Pod>, pods: seq<Pod>) {
    Ordered(sorted) && multiset(sorted) == multiset(pods)
  }

  method Sorted(pods: seq<Pod>) returns (sorted: seq<Pod>)
    ensures SortedFrom(sorted, pods)
  {
    sorted := [];
    for i := 0 to |pods|
      invariant SortedFrom(sorted, pods[..i])
    {
      assert pods[..i + 1] == pods[..i] + [pods[i]];
      sorted := Inserted(sorted, pods[i]);
    }
    assert pods[..|pods|] == pods;
  }

  method Inserted(sorted: seq<Pod>, p: Pod) returns (r: seq<Pod>)
    requires Ordered(sorted)
    ensures Ordered(r) && multiset(r) == multiset(sorted) + multiset{p}
  {
    var k := 0;
    while k < |sorted| && GoesBefore(sorted[k], p)
      invariant k <= |sorted| && forall i :: 0 <= i < k ==> GoesBefore(sorted[i], p)
    {
      k := k + 1;
    }
    r := sorted[..k] + [p] + sorted[k..];
    InsertionKeepsOrder(sorted, k, p);
    assert sorted == sorted[..k] + sorted[k..];
    hide Ordered;
  }

  lemma InsertionKeepsOrder(sorted: seq<Pod>, k: nat, p: Pod)
    requires Ordered(sorted) && k <= |sorted| && forall i :: 0 <= i < k ==> GoesBefore(sorted[i], p)
    requires k < |sorted| ==> !GoesBefore(sorted[k], p)
    ensures Ordered(sorted[..k] + [p] + sorted[k..])
  {
    forall j | k <= j < |sorted| ensures GoesBefore(p, sorted[j]) {
      assert j > k ==> GoesBefore(sorted[k], sorted[j]);
    }
    hide GoesBefore;
    var r := sorted[..k] + [p] + sorted[k..];
    assert forall i :: 0 <= i < |r| ==> r[i] == if i < k then sorted[i] else if i == k then p else sorted[i - 1];
  }

  function Beyond(count: nat, maxPods: nat): nat {
    if count > maxPods then count - maxPods else 0
  }

  /** The victims are the pods beyond the bound, first in the order in which Pods go. */
  ghost predicate AreVictims(victims: seq<Pod>, pods: seq<Pod>, maxPods: nat) {
    exists order :: SortedFrom(order, pods) && victims == order[..Beyond(|order|, maxPods)]
  }

  method Excess(inventory: seq<Pod>, deployment: string, maxPods: nat) returns (victims: seq<Pod>)
    ensures AreVictims(victims, Workers(inventory, deployment), maxPods)
  {
    var pods := Workers(inventory, deployment);
    var count := |pods|;
    victims := [];
    var sorted := Sorted(pods);
    assert |sorted| == |multiset(sorted)| && |pods| == |multiset(pods)|;
    var i := 0;
    while i < |sorted| && count > maxPods
      invariant i <= Beyond(|sorted|, maxPods) && victims == sorted[..i] && count == |sorted| - i
    {
      victims := victims + [sorted[i]];
      count := count - 1;
      i := i + 1;
    }
  }

  /** What draining leaves: exactly the bound when there was more, every worker either drained or left, and an active
    * worker drained only when all that are left are active and of no newer start.
    */
  lemma ExcessLeavesTheBound(pods: seq<Pod>, victims: seq<Pod>, maxPods: nat) returns (left: seq<Pod>)
    requires AreVictims(victims, pods, maxPods)
    ensures multiset(victims) + multiset(left) == multiset(pods)
    ensures |left| == if |pods| > maxPods then maxPods else |pods|
    ensures forall v, p :: v in victims && p in left ==>
              && (v.lifecycle == Active ==> p.lifecycle == Active)
              && ((v.lifecycle == Active <==> p.lifecycle == Active) ==>
                    v.epoch > p.epoch || (v.epoch == p.epoch && v.id <= p.id))
    ensures (exists v :: v in victims && v.lifecycle == Active) ==> forall p :: p in left ==> p.lifecycle == Active
  {
    hide AreVictims, GoesBefore;
    left := LeftByExcess(pods, victims, maxPods);
    forall v, p | v in victims && p in left
      ensures v.lifecycle == Active ==> p.lifecycle == Active
      ensures (v.lifecycle == Active <==> p.lifecycle == Active) ==> v.epoch > p.epoch || (v.epoch == p.epoch && v.id <= p.id)
    {
      WhoGoesBefore(v, p);
    }
  }

  lemma WhoGoesBefore(v: Pod, p: Pod)
    ensures GoesBefore(v, p)
            <==> && (v.lifecycle == Active ==> p.lifecycle == Active)
                 && ((v.lifecycle == Active <==> p.lifecycle == Active) ==>
                       v.epoch > p.epoch || (v.epoch == p.epoch && v.id <= p.id))
  {
  }

  lemma LeftByExcess(pods: seq<Pod>, victims: seq<Pod>, maxPods: nat) returns (left: seq<Pod>)
    requires AreVictims(victims, pods, maxPods)
    ensures multiset(victims) + multiset(left) == multiset(pods)
    ensures |left| == if |pods| > maxPods then maxPods else |pods|
    ensures forall v, p :: v in victims && p in left ==> GoesBefore(v, p)
  {
    hide GoesBefore;
    var order :| SortedFrom(order, pods) && victims == order[..Beyond(|order|, maxPods)];
    var k := |victims|;
    left := order[k..];
    assert |order| == |multiset(order)| && |pods| == |multiset(pods)|;
    assert order == victims + left;
    forall v, p | v in victims && p in left ensures GoesBefore(v, p) {
      var i :| 0 <= i < k && victims[i] == v;
      var j :| 0 <= j < |left| && left[j] == p;
      assert order[i] == v && order[k + j] == p;
    }
  }
}
