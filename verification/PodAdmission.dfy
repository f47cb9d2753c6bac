/** The check before a create, as the allocator makes it on a listing, is the check of the step machine. */
module PodAdmission {
  import opened Wrappers
  import Queue = AdmissionQueue
  import Machine = PodAllocation
  import opened PodLifecycle

  /** How rounds and start identifiers are written at the provider. */
  datatype Naming = Naming(deployment: string, round: nat -> string, start: string -> nat)

  function NamedScope(n: Naming, scope: Queue.Scope): Scope {
    Scope(n.deployment, n.round(scope.round), scope.hotkey)
  }

  function Named(n: Naming, c: Queue.Create): (Scope, nat) {
    (NamedScope(n, c.scope), n.start(c.startId))
  }

  /** Different names for different things, and none of them the gateways' own round. */
  ghost predicate Faithful(n: Naming) {
    && (forall r, t :: n.round(r) == n.round(t) ==> r == t)
    && (forall x, y :: n.start(x) == n.start(y) ==> x == y)
    && (forall r :: n.round(r) != "gateway")
  }

  /** The worker Pods in the listing are those of the machine that are visible, one for each. */
  ghost predicate Lists(n: Naming, s: Machine.Gateway, inventory: seq<Pod>, podOf: map<nat, Pod>) {
    && podOf.Keys == Machine.VisibleSet(s.posts) && podOf.Values == Fleet(inventory, n.deployment)
    && (forall i, j :: i in podOf && j in podOf && podOf[i] == podOf[j] ==> i == j)
    && (forall i :: i in podOf ==> i < |s.posts| && (podOf[i].scope, podOf[i].start) == Named(n, s.posts[i].create))
  }

  /** The two tables have the same operations, as far as admission reads them. */
  ghost predicate SameOperations(n: Naming, s: Machine.Gateway, operations: map<Scope, Operation>) {
    && operations.Keys == (set scope | scope in s.operations :: NamedScope(n, scope))
    && forall scope :: scope in s.operations ==>
         && NamedScope(n, scope) in operations
         && var o, i := operations[NamedScope(n, scope)], s.operations[scope];
            && o.session.start == n.start(i.startId) && o.submitted == i.submitted && o.since == i.since
            && (o.session.phase == Phase.Creating <==> i.phase == Machine.Creating)
  }

  function Unresolved(n: Naming, s: Machine.Gateway): set<(Scope, nat)> {
    set c | c in Queue.Unresolved(s.cache, s.now) :: Named(n, c)
  }

  /** What both count: creates inside their grace, and unresolved ones. */
  lemma CountedAlike(l: Machine.Limits, n: Naming, s: Machine.Gateway, operations: map<Scope, Operation>)
    requires Faithful(n) && SameOperations(n, s, operations)
    ensures UncertainCreates(operations, l.createGrace, s.now) + Unresolved(n, s)
            == (set c | c in Machine.Counted(l, s) :: Named(n, c))
  {
    var pending := UncertainCreates(operations, l.createGrace, s.now) + Unresolved(n, s);
    var counted := set c | c in Machine.Counted(l, s) :: Named(n, c);
    forall x | x in UncertainCreates(operations, l.createGrace, s.now) ensures x in counted {
      var scope :| scope in s.operations && NamedScope(n, scope) == x.0;
      var c := Queue.Create(scope, s.operations[scope].startId);
      assert c in Machine.Counted(l, s) && Named(n, c) == x;
    }
    forall x | x in counted ensures x in pending {
      var c :| c in Machine.Counted(l, s) && Named(n, c) == x;
      if c in Queue.Unresolved(s.cache, s.now) {
        assert x in Unresolved(n, s);
      } else {
        assert IsUncertain(operations[NamedScope(n, c.scope)], l.createGrace, s.now);
      }
    }
  }

  /** The allocator finds room exactly when the machine has capacity, so that the bounds proved of the machine are bounds on
    * the Pods that the allocator makes.
    */
  lemma RoomIsCapacity(l: Machine.Limits, n: Naming, s: Machine.Gateway, operations: map<Scope, Operation>,
                       inventory: seq<Pod>, podOf: map<nat, Pod>)
    requires Faithful(n) && Lists(n, s, inventory, podOf) && SameOperations(n, s, operations)
    ensures HasRoom(inventory, n.deployment, UncertainCreates(operations, l.createGrace, s.now) + Unresolved(n, s), l.maxPods)
            <==> Machine.HasCapacity(l, s)
  {
    hide UncertainCreates, Unresolved, Machine.Counted, SameOperations, Lists, Machine.Uncertain, Fleet, Faithful, Named;
    hide Machine.VisibleSet;
    CountedAlike(l, n, s, operations);
    FleetAlike(n, s, inventory, podOf);
    ToComeAlike(l, n, s, inventory, podOf, UncertainCreates(operations, l.createGrace, s.now) + Unresolved(n, s));
  }

  lemma FleetAlike(n: Naming, s: Machine.Gateway, inventory: seq<Pod>, podOf: map<nat, Pod>)
    requires Lists(n, s, inventory, podOf)
    ensures |Fleet(inventory, n.deployment)| == |Machine.VisibleSet(s.posts)|
  {
    hide Machine.VisibleSet, Fleet;
    MapCount(podOf);
  }

  lemma {:induction false} MapCount(m: map<nat, Pod>)
    requires forall i, j :: i in m && j in m && m[i] == m[j] ==> i == j
    ensures |m.Values| == |m.Keys|
  {
    if m != map[] {
      var i :| i in m;
      var rest := m - {i};
      MapCount(rest);
      assert m.Keys == rest.Keys + {i};
      assert m.Values == rest.Values + {m[i]};
    } else {
      assert m.Keys == {} && m.Values == {};
    }
  }

  lemma ToComeAlike(l: Machine.Limits, n: Naming, s: Machine.Gateway, inventory: seq<Pod>, podOf: map<nat, Pod>,
                    pending: set<(Scope, nat)>)
    requires Faithful(n) && Lists(n, s, inventory, podOf)
    requires pending == (set c | c in Machine.Counted(l, s) :: Named(n, c))
    ensures var visible := set p | p in inventory :: (p.scope, p.start);
            |set c | c in pending && c.0.deployment == n.deployment && c !in visible| == |Machine.Uncertain(l, s)|
  {
    hide Machine.Counted, Faithful, Lists, Machine.VisibleCreates, Named;
    var visible := set p | p in inventory :: (p.scope, p.start);
    forall c | c in Machine.Counted(l, s)
      ensures c in Machine.VisibleCreates(s.posts) <==> Named(n, c) in visible
    {
      VisibleAlike(n, s, inventory, podOf, c);
    }
    ImageWithout(n, Machine.Counted(l, s), Machine.VisibleCreates(s.posts), visible);
  }

  lemma ImageWithout(n: Naming, counted: set<Queue.Create>, seen: set<Queue.Create>, visible: set<(Scope, nat)>)
    requires Faithful(n)
    requires forall c :: c in counted ==> (c in seen <==> Named(n, c) in visible)
    ensures var pending := set c | c in counted :: Named(n, c);
            |set c | c in pending && c.0.deployment == n.deployment && c !in visible| == |counted - seen|
  {
    var pending := set c | c in counted :: Named(n, c);
    var toCome := set c | c in pending && c.0.deployment == n.deployment && c !in visible;
    NamedCount(n, counted - seen);
    hide Faithful, Named;
    forall x | x in NamedAll(n, counted - seen) ensures x in toCome {
      var c :| c in counted - seen && Named(n, c) == x;
      InDeployment(n, c);
    }
    assert toCome == NamedAll(n, counted - seen);
  }

  function NamedAll(n: Naming, creates: set<Queue.Create>): set<(Scope, nat)> {
    set c | c in creates :: Named(n, c)
  }

  lemma InDeployment(n: Naming, c: Queue.Create)
    ensures Named(n, c).0.deployment == n.deployment
  {
  }

  lemma {:induction false} NamedCount(n: Naming, creates: set<Queue.Create>)
    requires Faithful(n)
    ensures |NamedAll(n, creates)| == |creates|
  {
    if creates != {} {
      var c :| c in creates;
      var rest := creates - {c};
      NamedCount(n, rest);
      assert Named(n, c) !in NamedAll(n, rest);
      hide Faithful, Named;
      assert NamedAll(n, creates) == NamedAll(n, rest) + {Named(n, c)};
    }
  }

  lemma VisibleAlike(n: Naming, s: Machine.Gateway, inventory: seq<Pod>, podOf: map<nat, Pod>, c: Queue.Create)
    requires Faithful(n) && Lists(n, s, inventory, podOf)
    ensures c in Machine.VisibleCreates(s.posts) <==> exists p :: p in inventory && Named(n, c) == (p.scope, p.start)
  {
    if p :| p in inventory && Named(n, c) == (p.scope, p.start) {
      assert p in Fleet(inventory, n.deployment);
      var i :| i in podOf && podOf[i] == p;
      assert Named(n, s.posts[i].create) == Named(n, c);
    }
    if c in Machine.VisibleCreates(s.posts) {
      var i: nat :| i < |s.posts| && s.posts[i].fate == Machine.Visible && s.posts[i].create == c;
      assert i in podOf && podOf[i] in podOf.Values;
      assert podOf[i] in inventory;
    }
  }
}
