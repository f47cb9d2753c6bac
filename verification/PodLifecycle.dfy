/** Lifecycle of worker Pods: choosing a winner, renaming, retiring and activating against a provider that may
  * lose replies, surface Pods late and change Pods on its own. Identifiers are numbers in their string order.
  */
module PodLifecycle {
  import opened Wrappers

  /** A scope of the queue's journal, which serves one deployment, is one of these without the deployment. */
  datatype Scope = Scope(deployment: string, round: string, hotkey: string)

  datatype Lifecycle = Pending | Active | Draining | Drained

  datatype Status = Running | Exited | Errored | Other

  datatype Pod = Pod(
    id: nat, scope: Scope, start: nat, predecessor: Option<nat>, epoch: nat, image: string, spec: string,
    lifecycle: Lifecycle, status: Status)

  datatype Phase = Queued | Draining | Creating | Allocated | Retiring | Retired | Rejected | Lost

  datatype Session = Session(
    start: nat, predecessor: Option<nat>, phase: Phase, spec: string, image: string, pod: Option<nat>)

  datatype Error =
    | ProviderUnavailable
    | CreateRejected
    | InventoryConflict
    | AllocationConflict
    | StateConflict
    | CapacityReached
    | NotAuthorised

  /** What calls of the provider and of the fence raise, and listings that contradict each other. */
  predicate FromProvider(e: Error) {
    e in {ProviderUnavailable, InventoryConflict, StateConflict}
  }

  /** Everything about a Pod that its owner fixed at creation. */
  predicate SameIdentity(p: Pod, q: Pod) {
    p.(lifecycle := q.lifecycle, status := q.status) == q
  }

  function PhaseOf(lifecycle: Lifecycle): Phase {
    match lifecycle
    case Pending => Creating
    case Active => Allocated
    case Draining => Retiring
    case Drained => Retired
  }

  function SessionOf(p: Pod): Session {
    Session(p.start, p.predecessor, PhaseOf(p.lifecycle), p.spec, p.image, Some(p.id))
  }

  /** A session says of a Pod how it was listed. */
  predicate Reports(s: Session, p: Pod) {
    && s.start == p.start && s.predecessor == p.predecessor && s.pod == Some(p.id) && s.spec == p.spec && s.image == p.image
    && (s.phase == Creating <==> p.lifecycle == Pending)
    && (s.phase == Allocated <==> p.lifecycle == Active)
    && (s.phase == Retiring <==> p.lifecycle == Lifecycle.Draining)
    && (s.phase == Retired <==> p.lifecycle == Lifecycle.Drained)
  }

  lemma SessionReports(p: Pod)
    ensures Reports(SessionOf(p), p)
  {
  }

  // ---------------------------------------------------------------- the winner of a scope

  /** An active Pod goes before a pending one, and both before a Pod on its way out. */
  function Rank(lifecycle: Lifecycle): nat {
    match lifecycle
    case Active => 0
    case Pending => 1
    case _ => 2
  }

  predicate Newer(p: Pod, q: Pod) {
    p.epoch > q.epoch || (p.epoch == q.epoch && p.start >= q.start)
  }

  predicate Preferred(p: Pod, q: Pod) {
    Rank(p.lifecycle) < Rank(q.lifecycle) || (Rank(p.lifecycle) == Rank(q.lifecycle) && p.id <= q.id)
  }

  /** `w` is a Pod of the newest start, and the preferred one among the Pods of that start. */
  ghost predicate IsWinner(pods: seq<Pod>, w: Pod) {
    && w in pods
    && (exists top :: top in pods && top.start == w.start && forall p :: p in pods ==> Newer(top, p))
    && (forall p :: p in pods && p.start == w.start ==> Preferred(w, p))
  }

  ghost predicate DistinctIds(pods: seq<Pod>) {
    forall p, q :: p in pods && q in pods && p.id == q.id ==> p == q
  }

  /** The winner depends on which Pods are listed, not on the order or repetition of the listing. */
  lemma WinnerIgnoresOrder(pods: seq<Pod>, other: seq<Pod>, w: Pod, v: Pod)
    requires forall p :: p in pods <==> p in other
    requires DistinctIds(pods) && IsWinner(pods, w) && IsWinner(other, v)
    ensures w == v
  {
    var top :| top in pods && top.start == w.start && forall p :: p in pods ==> Newer(top, p);
    var peak :| peak in other && peak.start == v.start && forall p :: p in other ==> Newer(peak, p);
    assert Newer(top, peak) && Newer(peak, top);
    assert Preferred(w, v) && Preferred(v, w);
  }

  /** The newest epoch that a start is listed with; zero when it is not listed. */
  function EpochOf(pods: seq<Pod>, start: nat): (epoch: nat)
    ensures forall p :: p in pods && p.start == start ==> p.epoch <= epoch
  {
    if pods == [] then 0
    else
      var fewer, last := pods[..|pods| - 1], pods[|pods| - 1];
      var earlier := EpochOf(fewer, start);
      assert forall p :: p in pods <==> p in fewer || p == last;
      if last.start == start && last.epoch > earlier then last.epoch else earlier
  }

  lemma WinnerIgnoresCopies(pods: seq<Pod>)
    requires DistinctIds(pods)
    ensures forall w, v :: IsWinner(pods, w) && IsWinner(pods, v) ==> w == v
  {
    forall w, v | IsWinner(pods, w) && IsWinner(pods, v) ensures w == v {
      WinnerIgnoresOrder(pods, pods, w, v);
    }
  }

  lemma {:induction false} NotListed(pods: seq<Pod>, start: nat)
    requires forall p :: p in pods ==> p.start != start
    ensures EpochOf(pods, start) == 0
  {
    if pods != [] { NotListed(pods[..|pods| - 1], start); }
  }

  lemma {:induction false} EpochIsListed(pods: seq<Pod>, start: nat, seed: Pod) returns (best: Pod)
    requires seed in pods && seed.start == start
    ensures best in pods && best.start == start && best.epoch == EpochOf(pods, start)
  {
    var fewer, last := pods[..|pods| - 1], pods[|pods| - 1];
    if last.start == start && last.epoch >= EpochOf(fewer, start) {
      best := last;
    } else if other :| other in fewer && other.start == start {
      best := EpochIsListed(fewer, start, other);
    } else {
      NotListed(fewer, start);
    }
  }

  /** The Pods of a start that are in this state. */
  predicate HasCopy(pods: seq<Pod>, start: nat, lifecycle: Lifecycle) {
    exists p :: p in pods && p.start == start && p.lifecycle == lifecycle
  }

  /** The winner's start has the newest epoch, and among equals the greatest identifier. An active Pod of that start wins,
    * failing that a pending one, failing that any, and among these the one with the smallest identity.
    */
  lemma WinnerIs(pods: seq<Pod>, w: Pod)
    ensures IsWinner(pods, w)
            <==> && w in pods
                 && (forall p :: p in pods ==>
                       p.epoch < EpochOf(pods, w.start) || (p.epoch == EpochOf(pods, w.start) && p.start <= w.start))
                 && (HasCopy(pods, w.start, Active) ==> w.lifecycle == Active)
                 && (!HasCopy(pods, w.start, Active) && HasCopy(pods, w.start, Pending) ==> w.lifecycle == Pending)
                 && (forall p :: p in pods && p.start == w.start
                                 && (p.lifecycle == w.lifecycle || (w.lifecycle !in {Active, Pending}))
                                 ==> w.id <= p.id)
  {
    if w in pods {
      var best := EpochIsListed(pods, w.start, w);
      if IsWinner(pods, w) {
        var top :| top in pods && top.start == w.start && forall p :: p in pods ==> Newer(top, p);
        assert Newer(top, best);
        assert forall p :: p in pods && p.start == w.start ==> Preferred(w, p);
      } else if forall p :: p in pods ==> p.epoch < best.epoch || (p.epoch == best.epoch && p.start <= w.start) {
        assert forall p :: p in pods ==> Newer(best, p);
        var p :| p in pods && p.start == w.start && !Preferred(w, p);
      }
    }
  }

  /** Dormant Pods that surface late displace an active winner exactly when one of them is of a newer epoch than its
    * start, or of the same epoch and a later start. Copies of the winner's own start never do.
    */
  lemma LatePodsAndActiveWinner(pods: seq<Pod>, late: seq<Pod>, w: Pod)
    requires IsWinner(pods, w) && w.lifecycle == Active
    requires forall p :: p in late ==> p.lifecycle != Active
    ensures var epoch := EpochOf(pods + late, w.start);
            IsWinner(pods + late, w)
            <==> forall p :: p in late ==> p.epoch < epoch || (p.epoch == epoch && p.start <= w.start)
  {
    var all := pods + late;
    var epoch := EpochOf(all, w.start);
    var top :| top in pods && top.start == w.start && forall p :: p in pods ==> Newer(top, p);
    assert top in all;
    var best := EpochIsListed(all, w.start, top);
    if forall p :: p in late ==> p.epoch < epoch || (p.epoch == epoch && p.start <= w.start) {
      forall p | p in all
        ensures Newer(best, p)
        ensures p.start == w.start ==> Preferred(w, p)
      {
        if p in pods { assert Newer(best, top) && Newer(top, p); }
      }
    }
    if IsWinner(all, w) {
      var peak :| peak in all && peak.start == w.start && forall p :: p in all ==> Newer(peak, p);
      forall p | p in late ensures p.epoch < epoch || (p.epoch == epoch && p.start <= w.start) {
        assert p in all && Newer(peak, p) && peak.epoch <= epoch;
      }
    }
  }

  // ---------------------------------------------------------------- the provider

  /** What the provider may do between two calls: Pods vanish for good, change status, leave the active state or
    * surface; none becomes active and none changes its identity.
    */
  predicate IsDrift(pods: map<nat, Pod>, gone: set<nat>, next: map<nat, Pod>, nextGone: set<nat>) {
    && gone <= nextGone && pods.Keys - next.Keys <= nextGone && next.Keys !! nextGone
    && forall id :: id in next ==>
         && next[id].id == id
         && (id in pods ==> SameIdentity(pods[id], next[id]))
         && (next[id].lifecycle == Active ==> id in pods && pods[id].lifecycle == Active)
  }

  /** The provider's Pods. Every method requires and ensures that no scope has two active Pods, so that this holds
    * whenever anybody looks, between any two calls and after a crash as well. Only a drained Pod may be deleted.
    */
  class Provider {
    var pods: map<nat, Pod>
    /** Identifiers of Pods that are no more; the provider does not reuse them. */
    var gone: set<nat>
    /** Create requests received. */
    ghost var creates: nat

    constructor ()
      ensures Valid() && AtMostOneActive()
    {
      pods, gone, creates := map[], {}, 0;
    }

    ghost predicate Valid()
      reads this
    {
      && pods.Keys !! gone
      && forall id :: id in pods ==> pods[id].id == id
    }

    ghost predicate ActiveIn(scope: Scope, id: nat)
      reads this
    {
      id in pods && pods[id].scope == scope && pods[id].lifecycle == Active
    }

    ghost predicate AtMostOneActive()
      reads this
    {
      forall scope, i, j :: ActiveIn(scope, i) && ActiveIn(scope, j) ==> i == j
    }

    /** The provider changed on its own only, and received no create. */
    twostate predicate Drifted()
      reads this
    {
      IsDrift(old(pods), old(gone), pods, gone) && creates == old(creates)
    }

    twostate predicate ActivatedNone()
      reads this
    {
      forall scope, id :: ActiveIn(scope, id) ==> old(ActiveIn(scope, id))
    }

    method Drift()
      requires Valid() && AtMostOneActive()
      modifies this
      ensures Valid() && AtMostOneActive() && Drifted() && ActivatedNone()
    {
      var next: map<nat, Pod>, nextGone: set<nat> := *, *;
      if IsDrift(pods, gone, next, nextGone) {
        pods, gone := next, nextGone;
        assert forall sc, j :: ActiveIn(sc, j) ==> old(ActiveIn(sc, j));
      }
    }

    method List() returns (r: Result<seq<Pod>, Error>)
      requires Valid() && AtMostOneActive()
      modifies this
      ensures Valid() && AtMostOneActive() && Drifted() && ActivatedNone()
      ensures r.Success? ==> IsListing(r.value)
      ensures r.Failure? ==> r.error == ProviderUnavailable
    {
      Drift();
      var failed: bool := *;
      if failed {
        return Failure(ProviderUnavailable);
      }
      var inventory: seq<Pod>, rest := [], pods.Keys;
      while rest != {}
        invariant rest <= pods.Keys
        invariant forall p :: p in inventory <==> p.id in pods && p.id !in rest && pods[p.id] == p
        decreases rest
      {
        var id :| id in rest;
        inventory := inventory + [pods[id]];
        rest := rest - {id};
      }
      r := Success(inventory);
    }

    method Get(id: nat) returns (r: Result<Option<Pod>, Error>)
      requires Valid() && AtMostOneActive()
      modifies this
      ensures Valid() && AtMostOneActive() && Drifted() && ActivatedNone()
      ensures r.Success? ==> r.value == if id in pods then Some(pods[id]) else None
      ensures r.Failure? ==> r.error == ProviderUnavailable
    {
      Drift();
      var failed: bool := *;
      r := if failed then Failure(ProviderUnavailable)
           else Success(if id in pods then Some(pods[id]) else None);
    }

    /** Applied or not, and answered or not; an applied rename takes effect before the reply. */
    method Rename(id: nat, lifecycle: Lifecycle) returns (r: Result<(), Error>)
      requires Valid() && AtMostOneActive()
      requires lifecycle == Active && id in pods ==> forall j :: ActiveIn(pods[id].scope, j) ==> j == id
      modifies this
      ensures Valid() && AtMostOneActive() && creates == old(creates)
      ensures pods.Keys == old(pods.Keys) && gone == old(gone)
      ensures forall j :: j in pods ==>
                pods[j] == if j != id then old(pods[j])
                           else if pods[id].lifecycle == lifecycle then old(pods[id]).(lifecycle := lifecycle)
                           else old(pods[id])
      ensures r.Failure? ==> r.error == ProviderUnavailable
    {
      var applied, answered: bool := *, *;
      if applied && id in pods {
        pods := pods[id := pods[id].(lifecycle := lifecycle)];
        assert forall sc, j :: ActiveIn(sc, j) && (j != id || lifecycle != Active) ==> old(ActiveIn(sc, j));
      }
      r := if answered then Success(()) else Failure(ProviderUnavailable);
    }

    method Delete(id: nat) returns (r: Result<(), Error>)
      requires Valid() && AtMostOneActive() && (id in pods ==> pods[id].lifecycle == Lifecycle.Drained)
      modifies this
      ensures Valid() && AtMostOneActive() && Drifted() && ActivatedNone()
      ensures r.Failure? ==> r.error == ProviderUnavailable
    {
      var applied, answered: bool := *, *;
      if applied && id in pods {
        pods, gone := pods - {id}, gone + {id};
        assert forall sc, j :: ActiveIn(sc, j) ==> old(ActiveIn(sc, j));
      }
      r := if answered then Success(()) else Failure(ProviderUnavailable);
    }

    /** A create makes at most one Pod, dormant and under an identifier never seen, at once or by drifting later. */
    method Create(body: Pod) returns (r: Result<Pod, Error>)
      requires Valid() && AtMostOneActive() && body.lifecycle == Pending
      modifies this
      ensures Valid() && AtMostOneActive() && IsDrift(old(pods), old(gone), pods, gone) && creates == old(creates) + 1
      ensures ActivatedNone()
      ensures r.Success? ==> r.value.id in pods && r.value.id !in old(pods) && r.value == body.(id := r.value.id)
      ensures r.Failure? ==> r.error in {ProviderUnavailable, CreateRejected}
    {
      var candidate: nat, refused, landed, answered: bool := *, *, *, *;
      creates := creates + 1;
      assert forall sc, j :: ActiveIn(sc, j) <==> old(ActiveIn(sc, j));
      if refused || candidate in pods || candidate in gone {
        return Failure(CreateRejected);
      }
      if landed {
        pods := pods[candidate := body.(id := candidate)];
        assert forall sc, j :: ActiveIn(sc, j) ==> old(ActiveIn(sc, j));
      }
      r := if landed && answered then Success(body.(id := candidate)) else Failure(ProviderUnavailable);
    }

    ghost predicate IsListing(inventory: seq<Pod>)
      reads this
    {
      forall p :: p in inventory <==> p.id in pods && pods[p.id] == p
    }

    /** What a session says about the Pod that it is of, as this Pod was listed and as the provider has it now: allocated
      * is a Pod that was listed as active or has been read back as active, and a Pod on its way out is not active.
      */
    ghost predicate Tells(w: Pod, s: Session)
      reads this
    {
      && s.start == w.start && s.pod == Some(w.id) && s.phase in {Creating, Allocated, Retiring, Retired}
      && (s.phase == Creating ==> w.lifecycle == Pending)
      && (s.phase == Allocated ==> w.lifecycle == Active || ActiveIn(w.scope, w.id))
      && (s.phase == Retiring ==> w.id in pods && pods[w.id].lifecycle != Active)
      && (s.phase == Retired ==> w.id !in pods)
    }

    /** What an earlier listing still tells: every listed Pod is there with its identity or gone for good, and
      * every active Pod was listed as active.
      */
    ghost predicate Remembers(inventory: seq<Pod>)
      reads this
    {
      && DistinctIds(inventory)
      && (forall p :: p in inventory ==>
            if p.id in pods then SameIdentity(p, pods[p.id]) else p.id in gone)
      && (forall id :: id in pods && pods[id].lifecycle == Active ==>
            exists p :: p in inventory && p.id == id && p.lifecycle == Active)
    }

    lemma ListingIsRemembered(inventory: seq<Pod>)
      requires Valid() && IsListing(inventory)
      ensures Remembers(inventory)
    {
      forall id | id in pods && pods[id].lifecycle == Active
        ensures exists p :: p in inventory && p.id == id && p.lifecycle == Active
      {
        assert pods[id] in inventory;
      }
    }
  }

  // ---------------------------------------------------------------- the allocator

  datatype Operation = Operation(session: Session, epoch: nat, since: real, submitted: bool)

  datatype PodSpec = PodSpec(image: string, fingerprint: string)

  /** The listed Pods of a scope. */
  function Owned(inventory: seq<Pod>, scope: Scope): (pods: seq<Pod>)
    ensures forall p :: p in pods <==> p in inventory && p.scope == scope
  {
    if inventory == [] then []
    else (if inventory[0].scope == scope then [inventory[0]] else []) + Owned(inventory[1..], scope)
  }

  /** The listed Pods that belong to one connection. */
  function Copies(pods: seq<Pod>, start: nat): (copies: seq<Pod>)
    ensures forall p :: p in copies <==> p in pods && p.start == start
  {
    if pods == [] then []
    else (if pods[0].start == start then [pods[0]] else []) + Copies(pods[1..], start)
  }

  /** Pods of the same miner in this deployment, of any round, which a new Pod replaces. */
  predicate Replaced(p: Pod, scope: Scope) {
    p.scope == scope
    || (scope.round != "gateway" && p.scope.round != "gateway"
        && p.scope.deployment == scope.deployment && p.scope.hotkey == scope.hotkey)
  }

  /** A worker replaces workers of its miner, of whatever round, and a gateway replaces itself alone. */
  lemma ReplacedIsSameMiner(p: Pod, scope: Scope)
    ensures Replaced(p, scope)
            <==> && p.scope.deployment == scope.deployment && p.scope.hotkey == scope.hotkey
                 && (p.scope.round == scope.round || (p.scope.round != "gateway" && scope.round != "gateway"))
  {
  }

  method Winner(pods: seq<Pod>) returns (w: Option<Pod>)
    ensures pods == [] ==> w == None
    ensures pods != [] ==> w.Some? && IsWinner(pods, w.value)
  {
    if pods == [] {
      return None;
    }
    var top := pods[0];
    for i := 0 to |pods|
      invariant top in pods
      invariant forall j :: 0 <= j < i ==> Newer(top, pods[j])
    {
      if !Newer(top, pods[i]) {
        top := pods[i];
      }
    }
    var best := top;
    for i := 0 to |pods|
      invariant best in pods && best.start == top.start
      invariant Preferred(best, top)
      invariant forall j :: 0 <= j < i && pods[j].start == top.start ==> Preferred(best, pods[j])
    {
      if pods[i].start == top.start && !Preferred(best, pods[i]) {
        best := pods[i];
      }
    }
    w := Some(best);
  }

  /** Worker Pods of a deployment; gateways do not count against the fleet. */
  function Fleet(inventory: seq<Pod>, deployment: string): set<Pod> {
    set p | p in inventory && p.scope.deployment == deployment && p.scope.round != "gateway"
  }

  /** Listed workers and creates of the deployment without a listed Pod leave room for one more. */
  predicate HasRoom(inventory: seq<Pod>, deployment: string, pending: set<(Scope, nat)>, maxPods: nat) {
    var visible := set p | p in inventory :: (p.scope, p.start);
    |Fleet(inventory, deployment)| + |set c | c in pending && c.0.deployment == deployment && c !in visible| < maxPods
  }

  /** A create of the deployment that has no listed Pod. */
  predicate Unlisted(inventory: seq<Pod>, deployment: string, create: (Scope, nat)) {
    create.0.deployment == deployment && forall p :: p in inventory ==> create != (p.scope, p.start)
  }

  /** Creates that are still to be counted beside the listed Pods. */
  ghost predicate AreToCome(inventory: seq<Pod>, deployment: string, pending: set<(Scope, nat)>, extra: set<(Scope, nat)>) {
    extra <= pending && forall c :: c in extra ==> Unlisted(inventory, deployment, c)
  }

  /** Whichever of these creates still make a Pod, there is room for one more beside them and the listed Pods. */
  ghost predicate LeavesRoom(inventory: seq<Pod>, deployment: string, pending: set<(Scope, nat)>, maxPods: nat) {
    forall extra {:trigger AreToCome(inventory, deployment, pending, extra)} ::
      AreToCome(inventory, deployment, pending, extra) ==> |Fleet(inventory, deployment)| + |extra| + 1 <= maxPods
  }

  /** The fleet and creates without a listed Pod fill the bound. */
  ghost predicate FillsTheBound(inventory: seq<Pod>, deployment: string, pending: set<(Scope, nat)>, maxPods: nat) {
    exists extra {:trigger AreToCome(inventory, deployment, pending, extra)} ::
      AreToCome(inventory, deployment, pending, extra) && |Fleet(inventory, deployment)| + |extra| >= maxPods
  }

  /** The check finds room exactly when there is room for whatever may still come, and else the bound is filled. */
  lemma HasRoomIsRoom(inventory: seq<Pod>, deployment: string, pending: set<(Scope, nat)>, maxPods: nat)
    ensures HasRoom(inventory, deployment, pending, maxPods) <==> LeavesRoom(inventory, deployment, pending, maxPods)
    ensures !HasRoom(inventory, deployment, pending, maxPods) <==> FillsTheBound(inventory, deployment, pending, maxPods)
  {
    var visible := set p | p in inventory :: (p.scope, p.start);
    var all := set c | c in pending && c.0.deployment == deployment && c !in visible;
    assert AreToCome(inventory, deployment, pending, all);
    forall extra | AreToCome(inventory, deployment, pending, extra) ensures |extra| <= |all| {
      forall c | c in extra ensures c in all {
        assert Unlisted(inventory, deployment, c);
      }
      assert |all - extra| == |all| - |extra|;
    }
  }

  predicate IsUncertain(o: Operation, createGrace: real, now: real) {
    o.submitted && o.session.phase == Creating && now - o.since < createGrace
  }

  /** Creates of submitted operations that are still without an outcome inside the grace. */
  function UncertainCreates(operations: map<Scope, Operation>, createGrace: real, now: real): set<(Scope, nat)> {
    set scope | scope in operations && IsUncertain(operations[scope], createGrace, now)
      :: (scope, operations[scope].session.start)
  }

  lemma NewOperationIsNotUncertain(operations: map<Scope, Operation>, scope: Scope, o: Operation, createGrace: real, now: real)
    requires !IsUncertain(o, createGrace, now)
    requires scope in operations ==> !IsUncertain(operations[scope], createGrace, now)
    ensures UncertainCreates(operations[scope := o], createGrace, now) == UncertainCreates(operations, createGrace, now)
  {
    var next := operations[scope := o];
    forall c | c in UncertainCreates(operations, createGrace, now) ensures c in UncertainCreates(next, createGrace, now) {
      assert c.0 in next && next[c.0] == operations[c.0];
    }
    forall c | c in UncertainCreates(next, createGrace, now) ensures c in UncertainCreates(operations, createGrace, now) {
      assert c.0 in operations && next[c.0] == operations[c.0];
    }
  }

  class Allocator {
    const provider: Provider
    var spec: PodSpec
    var operations: map<Scope, Operation>
    const createGrace: real
    const maxPods: nat

    constructor (provider: Provider, spec: PodSpec, createGrace: real, maxPods: nat)
      requires 1 <= maxPods <= 1000
      ensures this.provider == provider && operations == map[]
    {
      this.provider, this.spec, this.createGrace, this.maxPods := provider, spec, createGrace, maxPods;
      operations := map[];
    }

    /** The fence that Pods consult: it may refuse a change. */
    method UpdateSelection(p: Pod, active: bool) returns (r: Result<(), Error>)
      ensures r.Failure? ==> r.error == StateConflict
    {
      var refused: bool := *;
      r := if refused then Failure(StateConflict) else Success(());
    }

    /** Changes the lifecycle in a Pod's name, unless it has changed meanwhile, and confirms it by reading the Pod back. */
    method Rename(pod: Pod, lifecycle: Lifecycle) returns (r: Result<Pod, Error>, ghost read: Option<Pod>)
      requires provider.Valid() && provider.AtMostOneActive()
      requires lifecycle == Active ==> forall id :: provider.ActiveIn(pod.scope, id) ==> id == pod.id
      modifies provider
      ensures provider.Valid() && provider.AtMostOneActive() && provider.creates == old(provider.creates)
      ensures lifecycle != Active ==> provider.Drifted()
      ensures provider.gone >= old(provider.gone)
      ensures forall id :: id in provider.pods && provider.pods[id].lifecycle == Active
                && !(id in old(provider.pods) && old(provider.pods)[id].lifecycle == Active)
                ==> id == pod.id && lifecycle == Active
      ensures r.Success? ==> pod.id in provider.pods && provider.pods[pod.id] == r.value
                             && SameIdentity(pod, r.value) && r.value.lifecycle == lifecycle
      ensures r.Success? ==> read.Some? && SameIdentity(pod, read.value) && read.value.lifecycle in {pod.lifecycle, lifecycle}
      ensures r.Failure? ==> r.error in {ProviderUnavailable, InventoryConflict}
    {
      read := None;
      var current :- provider.Get(pod.id);
      read := current;
      if current.None? || !SameIdentity(current.value, pod) {
        return Failure(InventoryConflict), read;
      }
      if current.value.lifecycle == lifecycle {
        return Success(current.value), read;
      }
      if current.value.lifecycle != pod.lifecycle {
        return Failure(InventoryConflict), read;
      }
      label renaming:
      var reply := provider.Rename(pod.id, lifecycle);
      assert provider.pods[pod.id].scope == pod.scope;
      assert forall sc, id :: provider.ActiveIn(sc, id) && (id != pod.id || lifecycle != Active)
                              ==> old@renaming(provider.ActiveIn(sc, id));
      var actual :- provider.Get(pod.id);
      if actual.None? || !SameIdentity(actual.value, pod) || actual.value.lifecycle != lifecycle {
        return Failure(ProviderUnavailable), read;
      }
      r := Success(actual.value);
    }

    /** A Pod that is still running and not drained is asked to drain first. */
    predicate MustDrain(p: Pod, drain: bool) {
      drain && p.lifecycle != Lifecycle.Drained && p.status !in {Exited, Errored}
    }

    /** Takes a Pod out of service and deletes it. Only a Pod confirmed absent counts as retired, and one that runs and has
      * to drain is not deleted before it has reported that it is drained.
      */
    method Retire(scope: Scope, start: nat, id: nat, drain: bool)
      returns (r: Result<Session, Error>, ghost read: Option<Pod>, ghost reported: bool)
      requires provider.Valid() && provider.AtMostOneActive()
      modifies provider
      ensures provider.Valid() && provider.AtMostOneActive() && provider.Drifted()
      ensures r.Failure? ==> FromProvider(r.error)
      ensures r.Success? ==> r.value.start == start && r.value.pod == Some(id) && r.value.phase in {Retiring, Retired}
      ensures r.Success? && r.value.phase == Retired ==> id !in provider.pods
      ensures r.Success? && r.value.phase == Retiring ==> id in provider.pods && provider.pods[id].lifecycle != Active
      ensures r.Success? && read.None? ==> r.value.phase == Retired
      ensures r.Success? && read.Some? ==> read.value.scope == scope && read.value.start == start
      ensures r.Success? && read.Some? && MustDrain(read.value, drain) && !reported ==>
                r.value.phase == Retiring && provider.pods[id].lifecycle == Lifecycle.Draining
    {
      read, reported := None, false;
      var found :- provider.Get(id);
      read := found;
      if found.None? {
        return Success(Session(start, None, Retired, spec.fingerprint, spec.image, Some(id))), read, reported;
      }
      var pod := found.value;
      if pod.scope != scope || pod.start != start {
        return Failure(InventoryConflict), read, reported;
      }
      var original := SessionOf(pod);
      var _ :- UpdateSelection(pod, false);
      if pod.lifecycle != Lifecycle.Drained {
        ghost var before;
        pod, before :- Rename(pod, Lifecycle.Draining);
        read := Some(pod);
        var answer: bool := *;
        reported := answer;
        if drain && pod.status != Exited && pod.status != Errored && !answer {
          return Success(original.(phase := Retiring)), read, reported;
        }
        pod, before :- Rename(pod, Lifecycle.Drained);
      }
      var reply := provider.Delete(pod.id);
      var left :- provider.Get(pod.id);
      r := Success(original.(phase := if left.Some? then Retiring else Retired));
    }

    /** Retires every listed Pod of the scope but the winner, and says whether one of another start may still be there. */
    method RetireLosers(scope: Scope, inventory: seq<Pod>, winner: Pod) returns (blocked: Result<bool, Error>)
      requires provider.Valid() && provider.AtMostOneActive() && provider.Remembers(inventory)
      modifies provider
      ensures provider.Valid() && provider.AtMostOneActive() && provider.Drifted() && provider.Remembers(inventory)
      ensures blocked.Failure? ==> FromProvider(blocked.error)
      ensures blocked == Success(false) ==>
                forall p :: p in Owned(inventory, scope) && p.start != winner.start && p.id != winner.id ==> p.id in provider.gone
    {
      hide Provider.AtMostOneActive, Owned;
      var pods, blocking := Owned(inventory, scope), false;
      for i := 0 to |pods|
        invariant provider.Valid() && provider.AtMostOneActive() && provider.Drifted()
        invariant provider.Remembers(inventory)
        invariant !blocking ==>
            forall j :: 0 <= j < i && pods[j].start != winner.start && pods[j].id != winner.id ==> pods[j].id in provider.gone
      {
        var pod := pods[i];
        if pod.id != winner.id {
          var retired, read, reported :- Retire(scope, pod.start, pod.id, true);
          if pod.start != winner.start {
            blocking := blocking || retired.phase != Retired;
          }
        }
      }
      blocked := Success(blocking);
    }

    /** Retires every listed Pod of the scope but the winner, then activates the winner if it is dormant. It
      * becomes active only after every listed Pod of another start has been confirmed absent.
      */
    method Reconcile(scope: Scope, inventory: seq<Pod>) returns (r: Result<Option<Session>, Error>)
      requires provider.Valid() && provider.AtMostOneActive() && provider.Remembers(inventory)
      modifies provider
      ensures provider.Valid() && provider.AtMostOneActive() && provider.creates == old(provider.creates)
      ensures provider.gone >= old(provider.gone)
      ensures forall id :: (id in provider.pods && provider.pods[id].lifecycle == Active
                            && !(id in old(provider.pods) && old(provider.pods)[id].lifecycle == Active)) ==>
                exists w :: IsWinner(Owned(inventory, scope), w) && w.id == id
                  && w.image == spec.image && w.spec == spec.fingerprint
                  && forall p :: p in inventory && p.scope == scope && p.start != w.start ==> p.id !in provider.pods
      ensures r.Failure? ==> FromProvider(r.error)
      ensures r.Success? ==> (r.value.None? <==> Owned(inventory, scope) == [])
      ensures r.Success? && r.value.Some? ==>
                && (exists w :: IsWinner(Owned(inventory, scope), w) && provider.Tells(w, r.value.value))
                && (r.value.value.phase != Allocated ==> provider.Drifted())
    {
      var pods := Owned(inventory, scope);
      var found := Winner(pods);
      if found.None? {
        return Success(None);
      }
      var winner := found.value;
      var blocked :- RetireLosers(scope, inventory, winner);
      var session :- Settle(scope, winner, blocked);
      r := Success(Some(session));
    }

    /** What becomes of the winner once the other Pods are gone or on their way out. */
    method Settle(scope: Scope, winner: Pod, blocked: bool) returns (r: Result<Session, Error>)
      requires provider.Valid() && provider.AtMostOneActive() && winner.scope == scope
      requires !blocked && winner.lifecycle == Pending ==> forall id :: provider.ActiveIn(scope, id) ==> id == winner.id
      modifies provider
      ensures provider.Valid() && provider.AtMostOneActive() && provider.creates == old(provider.creates)
      ensures provider.gone >= old(provider.gone)
      ensures blocked || winner.lifecycle != Pending ==> provider.Drifted()
      ensures forall id :: (id in provider.pods && provider.pods[id].lifecycle == Active
                            && !(id in old(provider.pods) && old(provider.pods)[id].lifecycle == Active)) ==>
                id == winner.id && winner.image == spec.image && winner.spec == spec.fingerprint
      ensures r.Failure? ==> FromProvider(r.error)
      ensures r.Success? ==> provider.Tells(winner, r.value) && (r.value.phase != Allocated ==> provider.Drifted())
    {
      var revoked: bool := *;
      if winner.lifecycle == Lifecycle.Draining || winner.lifecycle == Lifecycle.Drained
         || winner.status == Exited || winner.status == Errored || revoked
      {
        ghost var read, reported;
        r, read, reported := Retire(scope, winner.start, winner.id, true);
        return;
      }
      var actual := winner;
      if winner.lifecycle == Pending {
        if blocked {
          return Success(SessionOf(winner));
        }
        if winner.image != spec.image || winner.spec != spec.fingerprint {
          ghost var read, reported;
          r, read, reported := Retire(scope, winner.start, winner.id, true);
          return;
        }
        var _ :- UpdateSelection(winner, true);
        ghost var before;
        actual, before :- Rename(winner, Active);
      }
      var _ :- UpdateSelection(actual, true);
      r := Success(SessionOf(actual));
    }

    function Uncertain(now: real): set<(Scope, nat)>
      reads this
    {
      UncertainCreates(operations, createGrace, now)
    }

    /** The operation of this scope still has to send its create. */
    predicate Unsent(scope: Scope, start: nat)
      reads this
    {
      scope in operations && operations[scope].session.start == start && !operations[scope].submitted
    }

    /** Retires every listed Pod that a Pod of this scope replaces, stopping at the first one not confirmed absent. */
    method RetireReplaced(scope: Scope, inventory: seq<Pod>) returns (r: Result<bool, Error>)
      requires provider.Valid() && provider.AtMostOneActive() && provider.Remembers(inventory)
      modifies provider
      ensures provider.Valid() && provider.AtMostOneActive() && provider.Drifted()
      ensures r.Failure? ==> FromProvider(r.error)
      ensures r == Success(true) ==> forall p :: p in inventory && Replaced(p, scope) ==> p.id in provider.gone
      ensures r == Success(false) ==> exists p :: p in inventory && Replaced(p, scope) && p.id in provider.pods
    {
      for i := 0 to |inventory|
        invariant provider.Valid() && provider.AtMostOneActive() && provider.Remembers(inventory)
        invariant provider.Drifted()
        invariant forall j :: 0 <= j < i && Replaced(inventory[j], scope) ==> inventory[j].id in provider.gone
      {
        var pod := inventory[i];
        if Replaced(pod, scope) {
          var drain := scope.round == "gateway" || pod.scope.round != scope.round;
          var retired, read, reported :- Retire(pod.scope, pod.start, pod.id, drain);
          if retired.phase != Retired {
            return Success(false);
          }
        }
      }
      r := Success(true);
    }

    /** The create request itself, for an operation that already says that it was submitted. */
    method Request(scope: Scope) returns (created: Result<Pod, Error>)
      requires scope in operations && operations[scope].submitted && operations[scope].session.phase == Creating
      requires provider.Valid() && provider.AtMostOneActive()
      modifies provider
      ensures provider.Valid() && provider.AtMostOneActive() && provider.ActivatedNone()
      ensures provider.gone >= old(provider.gone) && provider.creates == old(provider.creates) + 1
      ensures created.Success? ==>
                && created.value.id in provider.pods && created.value.scope == scope
                && created.value.image == spec.image && created.value.spec == spec.fingerprint
                && created.value.start == operations[scope].session.start && created.value.epoch == operations[scope].epoch
      ensures created.Failure? ==> created.error in {ProviderUnavailable, CreateRejected}
    {
      var operation := operations[scope];
      created := provider.Create(Pod(0, scope, operation.session.start, operation.session.predecessor, operation.epoch,
                                     spec.image, spec.fingerprint, Pending, Other));
    }

    /** Sends the create of an operation, after recording that it does. */
    method Submit(scope: Scope, clock: nat)
      returns (r: Result<Session, Error>, ghost created: Result<Pod, Error>, ghost latest: seq<Pod>)
      requires scope in operations
      requires provider.Valid() && provider.AtMostOneActive()
      modifies this`operations, provider
      ensures provider.Valid() && provider.AtMostOneActive() && provider.gone >= old(provider.gone)
      ensures provider.creates == old(provider.creates) + 1
      ensures operations.Keys == old(operations.Keys)
      ensures forall s :: s in operations && s != scope ==> operations[s] == old(operations)[s]
      ensures operations[scope].submitted && operations[scope].epoch >= old(operations)[scope].epoch
      ensures operations[scope].epoch >= clock && operations[scope].since == old(operations)[scope].since
      ensures r.Success? ==> r.value == operations[scope].session
      ensures created == Failure(CreateRejected) ==> r == Success(old(operations)[scope].session.(phase := Rejected))
      ensures created == Failure(ProviderUnavailable) ==> r == Success(old(operations)[scope].session.(phase := Creating))
      ensures created.Success? && (spec.image != old(operations)[scope].session.image
                                   || spec.fingerprint != old(operations)[scope].session.spec) ==>
                r == Failure(InventoryConflict)
      ensures created.Success? && r.Success? ==>
                if Owned(latest, scope) == [] then r.value == old(operations)[scope].session.(phase := Creating)
                else exists w :: IsWinner(Owned(latest, scope), w) && provider.Tells(w, r.value)
      ensures created.Failure? ==> created.error in {ProviderUnavailable, CreateRejected}
      ensures r.Failure? ==> FromProvider(r.error)
    {
      hide Owned, Copies, IsWinner;
      var operation := operations[scope];
      operation := operation.(
        epoch := if clock > operation.epoch then clock else operation.epoch,
        submitted := true,
        session := operation.session.(phase := Creating));
      operations := operations[scope := operation];
      latest := [];
      var reply := Request(scope);
      created := reply;
      if reply.Failure? {
        if reply.error == CreateRejected {
          operation := operation.(session := operation.session.(phase := Rejected));
          operations := operations[scope := operation];
        }
        return Success(operation.session), created, latest;
      }
      var pod := reply.value;
      if pod.image != operation.session.image || pod.spec != operation.session.spec {
        return Failure(InventoryConflict), created, latest;
      }
      var inventory :- provider.List();
      latest := inventory;
      provider.ListingIsRemembered(inventory);
      var actual :- Reconcile(scope, inventory);
      if actual.Some? {
        operation := operation.(session := actual.value);
        operations := operations[scope := operation];
      }
      r := Success(operation.session);
    }

    /** Carries an operation forward. It sends its create at most once: only when it was not submitted before, with
      * the authorisation granted, after a listing without any Pod of its start, once every Pod of that listing which
      * it replaces has been confirmed absent, and when a second listing leaves room in the fleet.
      */
    method Progress(scope: Scope, now: real, clock: nat, unresolved: set<(Scope, nat)>, authorised: bool)
      returns (r: Result<Session, Error>, ghost listed: seq<Pod>, ghost counted: seq<Pod>)
      requires scope in operations
      requires provider.Valid() && provider.AtMostOneActive()
      modifies this`operations, provider
      ensures provider.Valid() && provider.AtMostOneActive()
      ensures operations.Keys == old(operations.Keys)
      ensures forall s :: s in operations && s != scope ==> operations[s] == old(operations)[s]
      ensures || (&& provider.creates == old(provider.creates)
                  && operations[scope].submitted == old(operations)[scope].submitted)
              || (&& provider.creates == old(provider.creates) + 1
                  && authorised && !old(operations)[scope].submitted && operations[scope].submitted
                  && operations[scope].epoch >= old(operations)[scope].epoch
                  && Copies(Owned(listed, scope), old(operations)[scope].session.start) == []
                  && (forall p :: p in listed && Replaced(p, scope) ==> p.id !in provider.pods)
                  && LeavesRoom(counted, scope.deployment, old(Uncertain(now)) + unresolved, maxPods))
      ensures operations[scope].epoch >= old(operations)[scope].epoch && operations[scope].since == old(operations)[scope].since
      ensures r.Success? ==> r.value == operations[scope].session
      ensures r.Success? && provider.creates == old(provider.creates) ==>
                if Copies(Owned(listed, scope), old(operations)[scope].session.start) != [] then
                  exists w :: IsWinner(Owned(listed, scope), w) && provider.Tells(w, r.value)
                else
                  && r.value == old(operations)[scope].session
                  && (!old(operations)[scope].submitted ==>
                        exists p :: p in listed && Replaced(p, scope) && p.id in provider.pods)
      ensures r == Failure(CapacityReached) ==>
                FillsTheBound(counted, scope.deployment, old(Uncertain(now)) + unresolved, maxPods)
      ensures r == Failure(NotAuthorised) ==>
                !authorised && LeavesRoom(counted, scope.deployment, old(Uncertain(now)) + unresolved, maxPods)
      ensures r.Failure? ==> FromProvider(r.error) || r.error in {CapacityReached, NotAuthorised}
    {
      hide Owned, Copies, Replaced, IsWinner, HasRoom, LeavesRoom, FillsTheBound;
      listed, counted := [], [];
      var operation := operations[scope];
      var inventory :- provider.List();
      provider.ListingIsRemembered(inventory);
      listed := inventory;
      var same := Copies(Owned(inventory, scope), operation.session.start);
      if same != [] {
        var actual :- Reconcile(scope, inventory);
        if actual.Some? {
          operations := operations[scope := operation.(session := actual.value)];
          return Success(actual.value), listed, counted;
        }
        return Failure(InventoryConflict), listed, counted;
      }
      if operation.submitted {
        return Success(operation.session), listed, counted;
      }
      var cleared :- RetireReplaced(scope, inventory);
      if !cleared {
        return Success(operation.session), listed, counted;
      }
      var again :- provider.List();
      counted := again;
      HasRoomIsRoom(again, scope.deployment, Uncertain(now) + unresolved, maxPods);
      if !HasRoom(again, scope.deployment, Uncertain(now) + unresolved, maxPods) {
        return Failure(CapacityReached), listed, counted;
      }
      if !authorised {
        return Failure(NotAuthorised), listed, counted;
      }
      ghost var created, latest;
      r, created, latest := Submit(scope, clock);
    }

    /** An epoch above those of all listed Pods of the scope, and not behind the clock. */
    method NextEpoch(pods: seq<Pod>, clock: nat) returns (epoch: nat)
      ensures epoch >= clock && forall p :: p in pods ==> epoch > p.epoch
      ensures epoch == clock || exists p :: p in pods && epoch == p.epoch + 1
    {
      epoch := clock;
      for i := 0 to |pods|
        invariant epoch >= clock && forall j :: 0 <= j < i ==> epoch > pods[j].epoch
        invariant epoch == clock || exists p :: p in pods && epoch == p.epoch + 1
      {
        if pods[i].epoch + 1 > epoch {
          epoch := pods[i].epoch + 1;
        }
      }
    }

    /** What is said of a connection whose Pods are gone: what is on record while its outcome is open, else that it was lost;
      * or that it was retired when nothing is on record.
      */
    predicate TellsGone(scope: Scope, now: real, s: Session)
      reads this
    {
      if scope in operations && operations[scope].session.start == s.start then
        var onRecord := operations[scope].session;
        if onRecord.phase == Allocated || now - operations[scope].since >= createGrace then s.phase == Lost && s.pod == None
        else s == onRecord
      else s.phase == Retired
    }

    /** Adopts the Pods of a connection that are already listed. */
    method Adopt(scope: Scope, start: nat, predecessor: Option<nat>, now: real, inventory: seq<Pod>)
      returns (r: Result<Session, Error>, ghost latest: seq<Pod>)
      requires provider.Valid() && provider.AtMostOneActive() && provider.Remembers(inventory)
      requires Copies(Owned(inventory, scope), start) != []
      modifies provider
      ensures provider.Valid() && provider.AtMostOneActive() && provider.creates == old(provider.creates)
      ensures r.Success? ==>
                && provider.IsListing(latest)
                && if Copies(Owned(latest, scope), start) == [] then r.value.start == start && TellsGone(scope, now, r.value)
                   else exists w :: IsWinner(Copies(Owned(latest, scope), start), w) && Reports(r.value, w)
      ensures r.Failure? ==> FromProvider(r.error) || r.error == AllocationConflict
      ensures r == Failure(AllocationConflict) <==>
                exists w :: IsWinner(Copies(Owned(inventory, scope), start), w)
                  && (w.predecessor != predecessor || w.spec != spec.fingerprint)
    {
      hide IsWinner, Reports;
      latest := [];
      assert DistinctIds(Copies(Owned(inventory, scope), start));
      var existing := Winner(Copies(Owned(inventory, scope), start));
      WinnerIgnoresCopies(Copies(Owned(inventory, scope), start));
      var session := SessionOf(existing.value);
      if session.predecessor != predecessor || session.spec != spec.fingerprint {
        return Failure(AllocationConflict), latest;
      }
      var _ :- Reconcile(scope, inventory);
      var again :- provider.List();
      latest := again;
      var left := Winner(Copies(Owned(again, scope), start));
      if left.Some? {
        SessionReports(left.value);
        return Success(SessionOf(left.value)), latest;
      }
      if scope in operations && operations[scope].session.start == start {
        var onRecord := operations[scope].session;
        if onRecord.phase == Allocated || now - operations[scope].since >= createGrace {
          return Success(onRecord.(phase := Lost, pod := None)), latest;
        }
        return Success(onRecord), latest;
      }
      r := Success(session.(phase := Retired));
    }

    /** Why a connection cannot have the scope: its Pods or its operation have other parameters, or another connection's
      * attempt is without an outcome inside its grace.
      */
    ghost predicate Conflicts(seen: seq<Pod>, scope: Scope, start: nat, predecessor: Option<nat>, now: real)
      reads this
    {
      var copies := Copies(Owned(seen, scope), start);
      if copies != [] then
        exists w :: IsWinner(copies, w) && (w.predecessor != predecessor || w.spec != spec.fingerprint)
      else
        && scope in operations
        && var session := operations[scope].session;
           if session.start == start then session.predecessor != predecessor || session.spec != spec.fingerprint
           else session.phase in {Phase.Draining, Creating} && now - operations[scope].since < createGrace
    }

    /** Starts or continues the connection of a scope. A submitted operation of the connection sends nothing again,
      * and while another connection's attempt is without an outcome inside its grace, nothing is sent at all.
      */
    method Acquire(scope: Scope, start: nat, predecessor: Option<nat>, now: real, clock: nat,
                   unresolved: set<(Scope, nat)>, authorised: bool)
      returns (r: Result<Session, Error>, ghost seen: seq<Pod>, ghost listed: seq<Pod>, ghost counted: seq<Pod>)
      requires provider.Valid() && provider.AtMostOneActive()
      modifies this`operations, provider
      ensures provider.Valid() && provider.AtMostOneActive()
      ensures r == Failure(AllocationConflict) ==>
                operations == old(operations) && provider.creates == old(provider.creates)
                && old(Conflicts(seen, scope, start, predecessor, now))
      ensures r.Success? ==> !old(Conflicts(seen, scope, start, predecessor, now))
      ensures r.Success? && Copies(Owned(seen, scope), start) != [] ==>
                operations == old(operations) && provider.creates == old(provider.creates)
      ensures r.Success? && Copies(Owned(seen, scope), start) == []
              && !(scope in old(operations) && old(operations)[scope].session.start == start) ==>
                scope in operations && operations[scope].since == now && operations[scope].epoch >= clock
                && forall p :: p in Owned(seen, scope) ==> operations[scope].epoch > p.epoch
      ensures r.Success? && Copies(Owned(seen, scope), start) == [] && scope in old(operations)
              && old(operations)[scope].session.start == start && now - old(operations)[scope].since >= createGrace ==>
                r.value == old(operations)[scope].session.(phase := Lost, pod := None) && operations == old(operations)
      ensures forall s :: s != scope ==>
                (s in operations <==> s in old(operations)) && (s in operations ==> operations[s] == old(operations)[s])
      ensures || provider.creates == old(provider.creates)
              || (&& provider.creates == old(provider.creates) + 1
                  && authorised && scope in operations && operations[scope].submitted
                  && (scope in old(operations) ==>
                        if old(operations)[scope].session.start == start then !old(operations)[scope].submitted
                        else old(operations)[scope].session.phase !in {Phase.Draining, Creating}
                             || now - old(operations)[scope].since >= createGrace)
                  && Copies(Owned(listed, scope), start) == []
                  && (forall p :: p in listed && Replaced(p, scope) ==> p.id !in provider.pods)
                  && LeavesRoom(counted, scope.deployment, old(Uncertain(now)) + unresolved, maxPods))
      ensures r == Failure(CapacityReached) ==>
                FillsTheBound(counted, scope.deployment, old(Uncertain(now)) + unresolved, maxPods)
      ensures r == Failure(NotAuthorised) ==> !authorised
    {
      hide Owned, Copies, Replaced, IsWinner, LeavesRoom, FillsTheBound;
      seen, listed, counted := [], [], [];
      var inventory :- provider.List();
      provider.ListingIsRemembered(inventory);
      seen := inventory;
      var pods := Owned(inventory, scope);
      if Copies(pods, start) != [] {
        ghost var latest;
        r, latest := Adopt(scope, start, predecessor, now, inventory);
        return;
      }
      if scope in operations && operations[scope].session.start == start {
        var operation := operations[scope];
        if operation.session.predecessor != predecessor || operation.session.spec != spec.fingerprint {
          return Failure(AllocationConflict), seen, listed, counted;
        }
        if now - operation.since >= createGrace {
          return Success(operation.session.(phase := Lost, pod := None)), seen, listed, counted;
        }
        r, listed, counted := Progress(scope, now, clock, unresolved, authorised);
        return;
      }
      if scope in operations && operations[scope].session.phase in {Phase.Draining, Creating}
         && now - operations[scope].since < createGrace
      {
        return Failure(AllocationConflict), seen, listed, counted;
      }
      var epoch := NextEpoch(pods, clock);
      var session := Session(start, predecessor, Phase.Draining, spec.fingerprint, spec.image, None);
      NewOperationIsNotUncertain(operations, scope, Operation(session, epoch, now, false), createGrace, now);
      operations := operations[scope := Operation(session, epoch, now, false)];
      r, listed, counted := Progress(scope, now, clock, unresolved, authorised);
    }

    /** The operation of this scope has not sent its create. */
    predicate StillToSend(scope: Scope)
      reads this
    {
      scope in operations && operations[scope].session.phase == Phase.Draining && !operations[scope].submitted
    }

    /** Repairs a scope: an unsent operation goes on, anything else only tidies the Pods that are there. */
    method ReconcileScope(scope: Scope, now: real, clock: nat, unresolved: set<(Scope, nat)>, authorised: bool)
      returns (r: Result<Option<Session>, Error>, ghost listed: seq<Pod>)
      requires provider.Valid() && provider.AtMostOneActive()
      modifies this`operations, provider
      ensures provider.Valid() && provider.AtMostOneActive()
      ensures r.Success? && Owned(listed, scope) != [] && !old(StillToSend(scope)) ==>
                && r.value.Some? && (exists w :: IsWinner(Owned(listed, scope), w) && provider.Tells(w, r.value.value))
                && (scope in old(operations) && old(operations)[scope].session.start == r.value.value.start ==>
                      scope in operations && operations[scope].session == r.value.value)
      ensures provider.creates != old(provider.creates) ==>
                && provider.creates == old(provider.creates) + 1 && authorised
                && scope in old(operations) && !old(operations)[scope].submitted
                && scope in operations && operations[scope].submitted
    {
      hide Owned, IsWinner, Replaced, LeavesRoom, FillsTheBound, Reports;
      listed := [];
      if StillToSend(scope) {
        ghost var counted;
        var session;
        session, listed, counted := Progress(scope, now, clock, unresolved, authorised);
        return if session.Success? then Success(Some(session.value)) else Failure(session.error), listed;
      }
      var inventory :- provider.List();
      provider.ListingIsRemembered(inventory);
      listed := inventory;
      var actual :- Reconcile(scope, inventory);
      if actual.Some? {
        if scope in operations && operations[scope].session.start == actual.value.start {
          operations := operations[scope := operations[scope].(session := actual.value)];
        }
        return Success(actual), listed;
      }
      ghost var again;
      r, again := Current(scope, now);
    }

    /** The operation of this scope waits for an outcome. */
    predicate Awaits(scope: Scope)
      reads this
    {
      scope in operations && operations[scope].session.phase in {Creating, Phase.Draining}
    }

    /** The session of a scope as callers see it; an attempt without an outcome expires after the grace. An operation that
      * still waits is reported unless a listed Pod is as new as it is; otherwise the winner is, if there is one.
      */
    method Current(scope: Scope, now: real) returns (r: Result<Option<Session>, Error>, ghost listed: seq<Pod>)
      requires provider.Valid() && provider.AtMostOneActive()
      modifies this`operations, provider
      ensures provider.Valid() && provider.AtMostOneActive() && provider.Drifted()
      ensures r.Failure? ==> r.error == ProviderUnavailable && operations == old(operations)
      ensures r.Success? ==>
                && provider.IsListing(listed)
                && operations == (if old(Awaits(scope)) && now - old(operations)[scope].since >= createGrace
                                  then old(operations)[scope := old(operations)[scope].(session :=
                                         old(operations)[scope].session.(phase := Lost, pod := None))]
                                  else old(operations))
                && var waits := old(Awaits(scope)) && now - old(operations)[scope].since < createGrace;
                   if Owned(listed, scope) == [] then
                     r.value == if waits then Some(old(operations)[scope].session) else None
                   else
                     exists w :: IsWinner(Owned(listed, scope), w)
                       && if waits && old(operations)[scope].epoch > w.epoch then r.value == Some(old(operations)[scope].session)
                          else r.value.Some? && Reports(r.value.value, w)
    {
      hide Owned, IsWinner, Reports;
      listed := [];
      var inventory :- provider.List();
      listed := inventory;
      var pod := Winner(Owned(inventory, scope));
      if pod.Some? { SessionReports(pod.value); }
      if scope in operations && operations[scope].session.phase in {Creating, Phase.Draining} {
        var operation := operations[scope];
        if now - operation.since >= createGrace {
          operations := operations[scope := operation.(session := operation.session.(phase := Lost, pod := None))];
        } else if pod.None? || operation.epoch > pod.value.epoch {
          return Success(Some(operation.session)), listed;
        }
      }
      r := Success(if pod.Some? then Some(SessionOf(pod.value)) else None);
    }

    /** Forgets an intent whose create was not sent; Pods stay as they are. */
    method Cancel(scope: Scope, start: nat)
      modifies this`operations
      ensures operations == if old(Unsent(scope, start)) then old(operations) - {scope} else old(operations)
    {
      if Unsent(scope, start) {
        operations := operations - {scope};
      }
    }
  }

  // ---------------------------------------------------------------- runs

  /** What the gateway, the provider or a crash does next. */
  datatype Event =
    | Acquire(scope: Scope, start: nat, predecessor: Option<nat>, now: real, clock: nat,
              unresolved: set<(Scope, nat)>, authorised: bool)
    | Reconcile(scope: Scope, now: real, clock: nat, unresolved: set<(Scope, nat)>, authorised: bool)
    | Current(scope: Scope, now: real)
    | Retire(scope: Scope, start: nat, id: nat, drain: bool)
    | Cancel(scope: Scope, start: nat)
    | Drift
    | Crash

  predicate MayCreate(e: Event) {
    e.Acquire? || e.Reconcile?
  }

  function CreatesAllowed(events: seq<Event>): nat {
    if events == [] then 0
    else CreatesAllowed(events[..|events| - 1]) + if MayCreate(events[|events| - 1]) then 1 else 0
  }

  /** One event. A crash loses the operation table and nothing else. */
  method Handle(a: Allocator, e: Event)
    requires a.provider.Valid() && a.provider.AtMostOneActive()
    modifies a`operations, a.provider
    ensures a.provider.Valid() && a.provider.AtMostOneActive()
    ensures a.provider.creates <= old(a.provider.creates) + if MayCreate(e) then 1 else 0
    ensures e.Crash? ==> a.operations == map[] && a.provider.pods == old(a.provider.pods)
  {
    match e
    case Acquire(scope, start, predecessor, now, clock, unresolved, authorised) =>
      var r, seen, listed, counted := a.Acquire(scope, start, predecessor, now, clock, unresolved, authorised);
    case Reconcile(scope, now, clock, unresolved, authorised) =>
      var r, listed := a.ReconcileScope(scope, now, clock, unresolved, authorised);
    case Current(scope, now) => var r, listed := a.Current(scope, now);
    case Retire(scope, start, id, drain) => var r, read, reported := a.Retire(scope, start, id, drain);
    case Cancel(scope, start) => a.Cancel(scope, start);
    case Drift => a.provider.Drift();
    case Crash => a.operations := map[];
  }

  /** Over every run of calls, changes at the provider and crashes no scope ever has two active Pods, and no call sends
    * more than one create.
    */
  method Run(provider: Provider, spec: PodSpec, createGrace: real, maxPods: nat, events: seq<Event>)
    requires 1 <= maxPods <= 1000 && provider.Valid() && provider.AtMostOneActive()
    modifies provider
    ensures provider.Valid() && provider.AtMostOneActive()
    ensures provider.creates <= old(provider.creates) + CreatesAllowed(events)
  {
    var a := new Allocator(provider, spec, createGrace, maxPods);
    for i := 0 to |events|
      invariant provider.Valid() && provider.AtMostOneActive() && a.provider == provider && fresh(a)
      invariant provider.creates <= old(provider.creates) + CreatesAllowed(events[..i])
    {
      assert events[..i + 1][..i] == events[..i];
      Handle(a, events[i]);
    }
    assert events[..|events|] == events;
  }
}
