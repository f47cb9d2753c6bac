/** The gateway's allocation of worker Pods as a step machine.
  *
  * Two threads act on one journal: the lifecycle worker acquires, admits, authorises, dispatches and releases
  * creates; request handlers and the event loop enqueue, cancel, complete and roll over. A save is confirmed,
  * refused, lands without confirmation, or stays in flight and may land later while its version is current.
  * A crash loses the operation table and the cached journal. A dispatched create makes at most one Pod, which
  * may become visible late; Pods may disappear at any time.
  */
module PodAllocation {
  import opened Wrappers
  import opened AdmissionQueue

  /** What became of a dispatched create: its Pod is still to appear, is listed, or is not there. */
  datatype Fate = InFlight | Visible | Absent

  /** One create request that left the gateway, with the time of its authorisation. */
  datatype Post = Post(create: Create, at: int, fate: Fate)

  /** How far an operation of PodLifecycle.dfy has got, as far as admission tells: nothing sent yet, a create sent, or
    * any later phase.
    */
  datatype Stage = Draining | Creating | Settled

  /** What admission reads of an operation; the allocator's own record of it is in PodLifecycle.dfy. */
  datatype Intent = Intent(startId: StartId, phase: Stage, since: real, submitted: bool)

  datatype Worker =
    | Idle
    | Admitted(create: Create)
    | Authorised(create: Create, at: int)

  datatype Save = Confirmed | Refused | Landed | Unsettled

  datatype Write = Write(expected: nat, data: QueueState)

  datatype Limits = Limits(maxPods: nat, capacity: nat, interval: real, createGrace: real)

  datatype Gateway = Gateway(
    journal: QueueState,
    version: nat,
    flying: set<Write>,
    cache: QueueState,
    operations: map<Scope, Intent>,
    worker: Worker,
    inputs: nat,
    now: real,
    posts: seq<Post>,
    asked: set<Create>,
    forgotten: set<Create>)

  datatype Step =
    | Enqueue(scope: Scope, startId: StartId, predecessor: Option<StartId>, save: Save)
    | Cancel(scope: Scope, startId: StartId, save: Save)
    | Complete(scope: Scope, startId: StartId, rejected: bool, save: Save)
    | Rollover(save: Save)
    | Reload
    | LateWrite(write: Write)
    | Acquire(scope: Scope, startId: StartId)
    | Admit(scope: Scope)
    | Authorize(save: Save, fenced: bool)
    | Dispatch(landed: bool, phase: Stage)
    | Release(scope: Scope, startId: StartId, best: Option<Connection>, save: Save)
    | Forget(scope: Scope)
    | Observe(scope: Scope, phase: Stage)
    | Surface(index: nat)
    | Vanish(index: nat)
    | Refresh(round: nat)
    | Tick(time: real)
    | Crash

  ghost predicate IsStart(s: Gateway) {
    && s.journal == s.cache == EMPTY_QUEUE && s.flying == {} && s.operations == map[]
    && s.worker == Idle && s.posts == [] && s.asked == {} && s.forgotten == {}
  }

  // ---------------------------------------------------------------- steps

  function AfterSave(s: Gateway, next: QueueState, save: Save): Gateway {
    match save
    case Confirmed => s.(journal := next, version := s.version + 1, cache := next)
    case Refused => s
    case Landed => s.(journal := next, version := s.version + 1)
    case Unsettled => s.(flying := s.flying + {Write(s.version, next)})
  }

  /** Creates dispatched so far, and the one the worker is about to dispatch. */
  function Ledger(s: Gateway): seq<Post> {
    s.posts + if s.worker.Authorised? then [Post(s.worker.create, s.worker.at, InFlight)] else []
  }

  function LiveSet(posts: seq<Post>): set<nat> {
    set i: nat | i < |posts| && posts[i].fate != Absent
  }

  function VisibleSet(posts: seq<Post>): set<nat> {
    set i: nat | i < |posts| && posts[i].fate == Visible
  }

  function VisibleCreates(posts: seq<Post>): set<Create> {
    set i: nat | i < |posts| && posts[i].fate == Visible :: posts[i].create
  }

  /** Creates that may still make a Pod, as far as the operation table and the journal tell. */
  function Counted(l: Limits, s: Gateway): set<Create> {
    (set scope | scope in s.operations && s.operations[scope].submitted
                 && s.operations[scope].phase == Creating
                 && s.now - s.operations[scope].since < l.createGrace
       :: Create(scope, s.operations[scope].startId))
    + Unresolved(s.cache, s.now)
  }

  /** Creates without a listed Pod that admission still counts. */
  function Uncertain(l: Limits, s: Gateway): set<Create> {
    Counted(l, s) - VisibleCreates(s.posts)
  }

  predicate HasCapacity(l: Limits, s: Gateway) {
    |VisibleSet(s.posts)| + |Uncertain(l, s)| < l.maxPods
  }

  /** Creates whose retained record a rollover overwrites with one of another round. */
  function Displaced(q: QueueState, round: nat): set<Create>
    requires forall h :: Leaving(q, round, h) ==> h in q.attempts
  {
    var left := LeftBehind(q, round);
    set c | c in q.retained && c in left && left[c] != q.retained[c]
      :: Create(Scope(q.retained[c].round, c.hotkey), c.startId)
  }

  predicate Undispatched(s: Gateway, scope: Scope) {
    scope in s.operations && !s.operations[scope].submitted
  }

  ghost predicate Enabled(l: Limits, s: Gateway, step: Step) {
    var q := Loaded(s.journal);
    match step
    case Enqueue(scope, startId, predecessor, _) =>
      scope.round == s.inputs && EnqueueChange(q, scope, startId, predecessor, l.capacity, s.now).Success?
    case Cancel(_, _, _) => true
    case Complete(scope, startId, _, _) =>
      exists i :: 0 <= i < |s.posts| && s.posts[i].create == Create(scope, startId) && s.posts[i].fate != InFlight
    case Rollover(_) => RolloverChange(q, s.inputs, s.now).Success?
    case Reload => true
    case LateWrite(write) => write in s.flying && write.expected == s.version
    case Acquire(scope, startId) =>
      && s.worker == Idle
      && IsPending(s.cache, scope, startId) && !s.cache.pending[scope.hotkey].submitted
      && (scope in s.operations ==>
            && s.operations[scope].startId != startId
            && (s.operations[scope].phase == Settled || s.now - s.operations[scope].since >= l.createGrace))
    case Admit(scope) => s.worker == Idle && Undispatched(s, scope) && HasCapacity(l, s)
    case Authorize(_, _) => s.worker.Admitted?
    case Dispatch(_, phase) => s.worker.Authorised? && phase != Draining
    case Release(scope, startId, best, _) =>
      && s.worker == Idle
      && IsPending(s.cache, scope, startId) && s.cache.pending[scope.hotkey].submitted
      && Undispatched(s, scope) && s.operations[scope].startId == startId
      && ReleaseChoice(q, scope, startId, best) && ReleaseChange(q, scope, startId, best).Success?
    case Forget(scope) => s.worker == Idle && Undispatched(s, scope)
    case Observe(scope, _) => s.worker == Idle && scope in s.operations
    case Surface(i) => i < |s.posts| && s.posts[i].fate == InFlight
    case Vanish(i) => i < |s.posts| && s.posts[i].fate == Visible
    case Refresh(round) => round >= s.inputs
    case Tick(time) => time >= s.now && forall i :: 0 <= i < |Ledger(s)| && Ledger(s)[i].fate == InFlight
                                                  ==> time - Ledger(s)[i].at as real < DISCOVERY_GRACE
    case Crash => true
  }

  ghost function Apply(l: Limits, s: Gateway, step: Step): Gateway
    requires Enabled(l, s, step)
  {
    var q := Loaded(s.journal);
    match step
    case Enqueue(scope, startId, predecessor, save) =>
      AfterSave(s, EnqueueChange(q, scope, startId, predecessor, l.capacity, s.now).value.0, save)
        .(asked := s.asked + {Create(scope, startId)})
    case Cancel(scope, startId, save) => AfterSave(s, CancelChange(q, scope, startId).0, save)
    case Complete(scope, startId, rejected, save) =>
      AfterSave(s, CompleteChange(q, scope, startId, rejected), save)
    case Rollover(save) =>
      AfterSave(s, RolloverChange(q, s.inputs, s.now).value, save)
        .(forgotten := s.forgotten + Displaced(q, s.inputs))
    case Reload => s.(cache := q)
    case LateWrite(write) =>
      s.(journal := write.data, version := s.version + 1, flying := s.flying - {write})
    case Acquire(scope, startId) =>
      s.(operations := s.operations[scope := Intent(startId, Draining, s.now, false)])
    case Admit(scope) => s.(worker := Admitted(Create(scope, s.operations[scope].startId)))
    case Authorize(save, fenced) =>
      var create := s.worker.create;
      var change := AuthorizeChange(q, create.scope, create.startId, l.interval, s.now);
      if change.Failure? then s.(worker := Idle)
      else AfterSave(s, change.value, save)
             .(worker := if save == Confirmed && !fenced then Authorised(create, Ceil(s.now)) else Idle)
    case Dispatch(landed, phase) =>
      var scope := s.worker.create.scope;
      s.(worker := Idle,
         posts := s.posts + [Post(s.worker.create, s.worker.at, if landed then InFlight else Absent)],
         operations := if scope !in s.operations then s.operations
                       else s.operations[scope := s.operations[scope].(submitted := true, phase := phase)])
    case Release(scope, startId, best, save) =>
      AfterSave(s, ReleaseChange(q, scope, startId, best).value, save)
    case Forget(scope) => s.(operations := s.operations - {scope})
    case Observe(scope, phase) =>
      s.(operations := s.operations[scope := s.operations[scope].(phase := phase)])
    case Surface(i) => s.(posts := s.posts[i := s.posts[i].(fate := Visible)])
    case Vanish(i) => s.(posts := s.posts[i := s.posts[i].(fate := Absent)])
    case Refresh(round) => s.(inputs := round)
    case Tick(time) => s.(now := time)
    case Crash => s.(operations := map[], worker := Idle, cache := q)
  }

  ghost predicate Follows(l: Limits, s: Gateway, t: Gateway) {
    exists step {:trigger Enabled(l, s, step)} :: Enabled(l, s, step) && t == Apply(l, s, step)
  }

  /** A run from the start: every state follows from the one before by an enabled step. */
  ghost predicate IsRun(l: Limits, states: seq<Gateway>) {
    && |states| > 0 && IsStart(states[0])
    && forall i :: 0 < i < |states| ==> Follows(l, states[i - 1], states[i])
  }

  // ---------------------------------------------------------------- what a journal says about a create

  /** The create cannot be authorised again: its record says it was, or its round is over and its hotkey is
    * queued, if at all, for another one.
    */
  ghost predicate Guarded(q: QueueState, inputs: nat, create: Create) {
    || Submitted(q, create.scope, create.startId)
    || (create.scope.round < inputs
        && (create.scope.hotkey in q.pending ==> q.pending[create.scope.hotkey].round != create.scope.round))
  }

  /** Admission counts the create: its entry is authorised with this attempt, or it is retained. */
  ghost predicate Covered(q: QueueState, create: Create, at: int) {
    var h, c := create.scope.hotkey, Connection(create.scope.hotkey, create.startId);
    || (IsPending(q, create.scope, create.startId) && q.pending[h].submitted
        && h in q.attempts && q.attempts[h].round == create.scope.round
        && q.attempts[h].startId == create.startId && q.attempts[h].at == at)
    || (c in q.retained && q.retained[c].round == create.scope.round && q.retained[c].at == at)
  }

  /** What a journal value must say about a create that was, or is about to be, dispatched. */
  ghost predicate Upholds(q: QueueState, inputs: nat, forgotten: set<Create>, p: Post) {
    && Guarded(q, inputs, p.create)
    && (IsPending(q, p.create.scope, p.create.startId) ==> q.pending[p.create.scope.hotkey].submitted)
    && q.lastCreateAt.Some? && p.at <= q.lastCreateAt.value
    && (p.fate == InFlight && p.create !in forgotten ==> Covered(q, p.create, p.at))
  }

  /** No record, attempt or retained create of a hotkey is of a later round than its pending entry, and an
    * authorised entry has its own attempt.
    */
  ghost predicate Aged(q: QueueState, inputs: nat, now: real) {
    && (q.lastCreateAt.Some? ==> q.lastCreateAt.value <= Ceil(now))
    && (forall h :: h in q.pending ==>
          && q.pending[h].round <= inputs
          && (q.pending[h].submitted ==> h in q.attempts && q.attempts[h].startId == q.pending[h].startId
                                         && q.attempts[h].round == q.pending[h].round))
    && (forall h :: h in q.attempts ==>
          && q.attempts[h].submitted && q.attempts[h].round <= inputs
          && (h in q.pending ==> q.attempts[h].round <= q.pending[h].round))
    && (forall c :: c in q.history ==>
          && q.history[c].round <= inputs
          && (c.hotkey in q.pending ==> q.history[c].round <= q.pending[c.hotkey].round)
          && (q.history[c].submitted && c.hotkey in q.attempts ==>
                q.history[c].round <= q.attempts[c.hotkey].round))
    && (forall c :: c in q.retained ==>
          && q.retained[c].round < inputs
          && (c.hotkey in q.pending ==> q.retained[c].round < q.pending[c.hotkey].round))
  }

  /** Entries and retained creates stem from requests. */
  ghost predicate Requested(q: QueueState, asked: set<Create>) {
    && (forall h :: h in q.pending ==> Create(Scope(q.pending[h].round, h), q.pending[h].startId) in asked)
    && (forall c :: c in q.retained ==> Create(Scope(q.retained[c].round, c.hotkey), c.startId) in asked)
  }

  /** A hotkey asked for the same start identifier again in a later round. */
  ghost predicate AskedAgain(asked: set<Create>, create: Create) {
    && create in asked
    && exists again :: again in asked && again.scope.hotkey == create.scope.hotkey
                       && again.startId == create.startId && create.scope.round < again.scope.round
  }

  /** What holds of every journal value that is, or can still become, the journal or the cache. */
  ghost predicate ValueOk(s: Gateway, q: QueueState) {
    && Aged(q, s.inputs, s.now)
    && Requested(q, s.asked)
    && forall i {:trigger Upholds(q, s.inputs, s.forgotten, Ledger(s)[i])} ::
         0 <= i < |Ledger(s)| ==> Upholds(q, s.inputs, s.forgotten, Ledger(s)[i])
  }

  ghost predicate ValuesOk(s: Gateway) {
    && ValueOk(s, s.journal)
    && ValueOk(s, s.cache)
    && (forall w :: w in s.flying ==> w.expected <= s.version && (w.expected == s.version ==> ValueOk(s, w.data)))
  }

  ghost predicate LedgerOk(l: Limits, s: Gateway) {
    var ledger := Ledger(s);
    && (forall i, j :: 0 <= i < j < |ledger| ==> ledger[i].create != ledger[j].create)
    && (forall i :: 0 < i < |ledger| ==> (ledger[i].at - ledger[i - 1].at) as real >= l.interval)
    && (forall i :: 0 <= i < |ledger| && ledger[i].fate == InFlight ==>
          s.now - ledger[i].at as real < DISCOVERY_GRACE)
    && (forall create :: create in s.forgotten ==> AskedAgain(s.asked, create))
  }

  ghost predicate WorkerOk(s: Gateway) {
    && (s.worker != Idle ==>
          Undispatched(s, s.worker.create.scope)
          && s.operations[s.worker.create.scope].startId == s.worker.create.startId)
    && (forall scope :: Undispatched(s, scope) ==>
          forall i :: 0 <= i < |s.posts| ==> s.posts[i].create != Create(scope, s.operations[scope].startId))
  }

  ghost predicate FleetOk(l: Limits, s: Gateway) {
    && |LiveSet(s.posts)| <= l.maxPods + |s.forgotten|
    && (s.worker != Idle ==> |LiveSet(s.posts)| < l.maxPods + |s.forgotten|)
  }

  ghost predicate Inv(l: Limits, s: Gateway) {
    ValuesOk(s) && LedgerOk(l, s) && WorkerOk(s) && FleetOk(l, s)
  }

  // ---------------------------------------------------------------- every change upholds the ledger

  lemma LoadedUpholds(q: QueueState, inputs: nat, forgotten: set<Create>, p: Post)
    requires Upholds(q, inputs, forgotten, p)
    ensures Upholds(Loaded(q), inputs, forgotten, p)
  {
  }

  lemma LoadedAged(q: QueueState, inputs: nat, now: real)
    requires Aged(q, inputs, now)
    ensures Aged(Loaded(q), inputs, now)
  {
    var r := Loaded(q);
    forall c | c in r.history
      ensures r.history[c].round <= inputs
      ensures c.hotkey in q.pending ==> r.history[c].round <= q.pending[c.hotkey].round
      ensures r.history[c].submitted && c.hotkey in q.attempts ==> r.history[c].round <= q.attempts[c.hotkey].round
    {
      if c !in q.history { assert c.hotkey in q.attempts; }
    }
  }

  lemma EnqueueUpholds(q: QueueState, inputs: nat, forgotten: set<Create>, p: Post,
                       scope: Scope, startId: StartId, predecessor: Option<StartId>, capacity: nat, now: real)
    requires Upholds(q, inputs, forgotten, p) && Aged(q, inputs, now) && scope.round == inputs
    requires EnqueueChange(q, scope, startId, predecessor, capacity, now).Success?
    ensures Upholds(EnqueueChange(q, scope, startId, predecessor, capacity, now).value.0, inputs, forgotten, p)
  {
  }

  lemma EnqueueAged(q: QueueState, inputs: nat, scope: Scope, startId: StartId, predecessor: Option<StartId>,
                    capacity: nat, now: real)
    requires Aged(q, inputs, now) && scope.round == inputs
    requires EnqueueChange(q, scope, startId, predecessor, capacity, now).Success?
    ensures Aged(EnqueueChange(q, scope, startId, predecessor, capacity, now).value.0, inputs, now)
  {
  }

  lemma EnqueueRequested(q: QueueState, scope: Scope, startId: StartId, predecessor: Option<StartId>,
                         capacity: nat, now: real, asked: set<Create>)
    requires Requested(q, asked)
    requires EnqueueChange(q, scope, startId, predecessor, capacity, now).Success?
    ensures Requested(EnqueueChange(q, scope, startId, predecessor, capacity, now).value.0,
                      asked + {Create(scope, startId)})
  {
  }

  /** An authorisation is of a create not yet in the ledger, and keeps its distance from every earlier one. */
  lemma AuthorizeUpholds(q: QueueState, inputs: nat, forgotten: set<Create>, p: Post,
                         create: Create, interval: real, now: real)
    requires Upholds(q, inputs, forgotten, p) && Aged(q, inputs, now) && interval >= 0.0
    requires AuthorizeChange(q, create.scope, create.startId, interval, now).Success?
    ensures var r := AuthorizeChange(q, create.scope, create.startId, interval, now).value;
            && p.create != create
            && (Ceil(now) - p.at) as real >= interval
            && Upholds(r, inputs, forgotten, p)
  {
  }

  lemma AuthorizeAged(q: QueueState, inputs: nat, create: Create, interval: real, now: real, asked: set<Create>)
    requires Aged(q, inputs, now) && Requested(q, asked) && interval >= 0.0
    requires AuthorizeChange(q, create.scope, create.startId, interval, now).Success?
    ensures var r := AuthorizeChange(q, create.scope, create.startId, interval, now).value;
            Aged(r, inputs, now) && Requested(r, asked)
  {
  }

  lemma CompleteUpholds(q: QueueState, inputs: nat, forgotten: set<Create>, p: Post,
                        scope: Scope, startId: StartId, rejected: bool, now: real)
    requires Upholds(q, inputs, forgotten, p) && Aged(q, inputs, now)
    requires p.create == Create(scope, startId) ==> p.fate != InFlight
    ensures Upholds(CompleteChange(q, scope, startId, rejected), inputs, forgotten, p)
  {
  }

  lemma CompleteAged(q: QueueState, inputs: nat, scope: Scope, startId: StartId, rejected: bool, now: real,
                     asked: set<Create>)
    requires Aged(q, inputs, now) && Requested(q, asked)
    ensures Aged(CompleteChange(q, scope, startId, rejected), inputs, now)
    ensures Requested(CompleteChange(q, scope, startId, rejected), asked)
  {
  }

  lemma CancelUpholds(q: QueueState, inputs: nat, forgotten: set<Create>, p: Post, scope: Scope, startId: StartId)
    requires Upholds(q, inputs, forgotten, p)
    ensures Upholds(CancelChange(q, scope, startId).0, inputs, forgotten, p)
  {
  }

  lemma ReleaseUpholds(q: QueueState, inputs: nat, forgotten: set<Create>, p: Post,
                       scope: Scope, startId: StartId, best: Option<Connection>, now: real)
    requires Upholds(q, inputs, forgotten, p) && Aged(q, inputs, now) && p.create != Create(scope, startId)
    requires ReleaseChange(q, scope, startId, best).Success?
    ensures Upholds(ReleaseChange(q, scope, startId, best).value, inputs, forgotten, p)
  {
  }

  lemma ReleaseAged(q: QueueState, inputs: nat, scope: Scope, startId: StartId, best: Option<Connection>,
                    now: real, asked: set<Create>)
    requires Aged(q, inputs, now) && Requested(q, asked)
    requires ReleaseChoice(q, scope, startId, best) && ReleaseChange(q, scope, startId, best).Success?
    ensures Aged(ReleaseChange(q, scope, startId, best).value, inputs, now)
    ensures Requested(ReleaseChange(q, scope, startId, best).value, asked)
  {
  }

  /** A rollover keeps counting a create, as an entry or as retained, unless it displaces its record. */
  lemma RolloverCovers(q: QueueState, inputs: nat, create: Create, at: int, now: real)
    requires RolloverChange(q, inputs, now).Success?
    requires Covered(q, create, at) && now - at as real < DISCOVERY_GRACE
    requires create !in Displaced(q, inputs)
    ensures Covered(RolloverChange(q, inputs, now).value, create, at)
  {
    var h, c := create.scope.hotkey, Connection(create.scope.hotkey, create.startId);
    var left, r := LeftBehind(q, inputs), RolloverChange(q, inputs, now).value;
    assert r.retained == Retained(q, inputs, now);
    if c in q.retained && q.retained[c].round == create.scope.round && q.retained[c].at == at {
      if c in left { assert left[c] == q.retained[c]; }
      assert c in r.retained;
    } else if create.scope.round != inputs {
      assert Leaving(q, inputs, h) && c in left && left[c] == q.attempts[h];
      assert c in r.retained;
    } else {
      assert h in r.pending && h in r.attempts;
    }
  }

  lemma RolloverGuards(q: QueueState, inputs: nat, create: Create, now: real)
    requires Guarded(q, inputs, create) && Aged(q, inputs, now)
    requires RolloverChange(q, inputs, now).Success?
    ensures Guarded(RolloverChange(q, inputs, now).value, inputs, create)
  {
    var h, c := create.scope.hotkey, Connection(create.scope.hotkey, create.startId);
    var r := RolloverChange(q, inputs, now).value;
    assert h in r.pending ==> r.pending[h].round == inputs;
    if create.scope.round == inputs {
      assert c in r.history;
    } else if c in q.history {
      assert q.history[c].round <= inputs;
    }
  }

  lemma RolloverUpholds(q: QueueState, inputs: nat, forgotten: set<Create>, p: Post, now: real)
    requires Upholds(q, inputs, forgotten, p) && Aged(q, inputs, now)
    requires RolloverChange(q, inputs, now).Success?
    requires p.fate == InFlight ==> now - p.at as real < DISCOVERY_GRACE
    ensures Upholds(RolloverChange(q, inputs, now).value, inputs, forgotten + Displaced(q, inputs), p)
  {
    var r := RolloverChange(q, inputs, now).value;
    var h := p.create.scope.hotkey;
    assert h in r.pending ==> h in q.pending && r.pending[h] == q.pending[h];
    assert r.lastCreateAt == q.lastCreateAt;
    RolloverGuards(q, inputs, p.create, now);
    if p.fate == InFlight && p.create !in forgotten + Displaced(q, inputs) {
      RolloverCovers(q, inputs, p.create, p.at, now);
    }
  }

  lemma RolloverAged(q: QueueState, inputs: nat, now: real)
    requires Aged(q, inputs, now)
    requires RolloverChange(q, inputs, now).Success?
    ensures Aged(RolloverChange(q, inputs, now).value, inputs, now)
  {
    var r := RolloverChange(q, inputs, now).value;
    forall c | c in r.retained
      ensures r.retained[c].round < inputs
    {
      assert c in LeftBehind(q, inputs) ==> Leaving(q, inputs, c.hotkey);
    }
    assert r.pending.Keys <= q.pending.Keys && r.attempts.Keys <= q.attempts.Keys;
    assert r.history.Keys <= q.history.Keys;
  }

  lemma LeftBehindRequested(q: QueueState, inputs: nat, now: real, asked: set<Create>, c: Connection)
    requires Aged(q, inputs, now) && Requested(q, asked)
    requires RolloverChange(q, inputs, now).Success? && c in LeftBehind(q, inputs)
    ensures Leaving(q, inputs, c.hotkey)
    ensures LeftBehind(q, inputs)[c].round == q.pending[c.hotkey].round
    ensures Create(Scope(LeftBehind(q, inputs)[c].round, c.hotkey), c.startId) in asked
  {
  }

  lemma RolloverRequested(q: QueueState, inputs: nat, now: real, asked: set<Create>)
    requires Aged(q, inputs, now) && Requested(q, asked)
    requires RolloverChange(q, inputs, now).Success?
    ensures Requested(RolloverChange(q, inputs, now).value, asked)
  {
    var r := RolloverChange(q, inputs, now).value;
    forall c | c in r.retained
      ensures Create(Scope(r.retained[c].round, c.hotkey), c.startId) in asked
    {
      if c in LeftBehind(q, inputs) { LeftBehindRequested(q, inputs, now, asked, c); }
    }
    forall h | h in r.pending
      ensures Create(Scope(r.pending[h].round, h), r.pending[h].startId) in asked
    {
      assert h in q.pending;
    }
  }

  /** A rollover displaces a create only if its hotkey asked for the same start identifier in a later round. */
  lemma DisplacedWereAskedAgain(q: QueueState, inputs: nat, now: real, asked: set<Create>)
    requires Aged(q, inputs, now) && Requested(q, asked)
    requires RolloverChange(q, inputs, now).Success?
    ensures forall create :: create in Displaced(q, inputs) ==> AskedAgain(asked, create)
  {
    forall create | create in Displaced(q, inputs)
      ensures AskedAgain(asked, create)
    {
      var c := Connection(create.scope.hotkey, create.startId);
      assert c in q.retained && c in LeftBehind(q, inputs);
      LeftBehindRequested(q, inputs, now, asked, c);
      var again := Create(Scope(LeftBehind(q, inputs)[c].round, c.hotkey), c.startId);
      assert again in asked;
    }
  }

  // ---------------------------------------------------------------- every step keeps the invariant

  /** Time and rounds advance, requests and displaced creates accumulate, and the ledger only loosens. */
  ghost predicate Loosens(s: Gateway, t: Gateway) {
    && s.inputs <= t.inputs && s.now <= t.now && s.asked <= t.asked && s.forgotten <= t.forgotten
    && |Ledger(t)| <= |Ledger(s)|
    && forall i :: 0 <= i < |Ledger(t)| ==>
         && Ledger(t)[i].create == Ledger(s)[i].create && Ledger(t)[i].at == Ledger(s)[i].at
         && (Ledger(t)[i].fate == InFlight ==> Ledger(s)[i].fate == InFlight)
  }

  lemma ValueLoosens(s: Gateway, t: Gateway, q: QueueState)
    requires Loosens(s, t) && ValueOk(s, q)
    ensures ValueOk(t, q)
  {
    forall i | 0 <= i < |Ledger(t)|
      ensures Upholds(q, t.inputs, t.forgotten, Ledger(t)[i])
    {
      assert Upholds(q, s.inputs, s.forgotten, Ledger(s)[i]);
    }
  }

  lemma ValuesLoosen(s: Gateway, t: Gateway)
    requires Loosens(s, t) && ValuesOk(s)
    requires t.journal == s.journal && t.version == s.version && t.flying <= s.flying
    requires t.cache == s.cache || t.cache == Loaded(s.journal)
    ensures ValuesOk(t)
  {
    ValueLoosens(s, t, s.journal);
    ValueLoosens(s, t, s.cache);
    LoadedOk(s);
    ValueLoosens(s, t, Loaded(s.journal));
    forall w | w in t.flying && w.expected == t.version ensures ValueOk(t, w.data) {
      ValueLoosens(s, t, w.data);
    }
  }

  lemma LoadedOk(s: Gateway)
    requires ValueOk(s, s.journal)
    ensures ValueOk(s, Loaded(s.journal))
  {
    LoadedAged(s.journal, s.inputs, s.now);
    forall i | 0 <= i < |Ledger(s)|
      ensures Upholds(Loaded(s.journal), s.inputs, s.forgotten, Ledger(s)[i])
    {
      assert Upholds(s.journal, s.inputs, s.forgotten, Ledger(s)[i]);
      LoadedUpholds(s.journal, s.inputs, s.forgotten, Ledger(s)[i]);
    }
  }

  lemma SaveKeepsValues(s: Gateway, next: QueueState, save: Save)
    requires ValuesOk(s) && ValueOk(s, next)
    ensures ValuesOk(AfterSave(s, next, save))
  {
    var t := AfterSave(s, next, save);
    assert Ledger(t) == Ledger(s);
    assert Loosens(s, t);
    ValueLoosens(s, t, next);
    ValueLoosens(s, t, s.journal);
    ValueLoosens(s, t, s.cache);
    forall w | w in t.flying && w.expected == t.version ensures ValueOk(t, w.data) {
      ValueLoosens(s, t, w.data);
    }
  }

  lemma EnqueueKeepsValue(s: Gateway, q: QueueState, scope: Scope, startId: StartId,
                          predecessor: Option<StartId>, capacity: nat)
    requires ValueOk(s, q) && scope.round == s.inputs
    requires EnqueueChange(q, scope, startId, predecessor, capacity, s.now).Success?
    ensures ValueOk(s.(asked := s.asked + {Create(scope, startId)}),
                    EnqueueChange(q, scope, startId, predecessor, capacity, s.now).value.0)
  {
    var t := s.(asked := s.asked + {Create(scope, startId)});
    var next := EnqueueChange(q, scope, startId, predecessor, capacity, s.now).value.0;
    EnqueueAged(q, s.inputs, scope, startId, predecessor, capacity, s.now);
    EnqueueRequested(q, scope, startId, predecessor, capacity, s.now, s.asked);
    forall i | 0 <= i < |Ledger(t)| ensures Upholds(next, t.inputs, t.forgotten, Ledger(t)[i]) {
      assert Upholds(q, s.inputs, s.forgotten, Ledger(s)[i]);
      EnqueueUpholds(q, s.inputs, s.forgotten, Ledger(s)[i], scope, startId, predecessor, capacity, s.now);
    }
  }

  lemma CompleteKeepsValue(s: Gateway, q: QueueState, scope: Scope, startId: StartId, rejected: bool)
    requires ValueOk(s, q)
    requires forall i :: 0 <= i < |Ledger(s)| && Ledger(s)[i].create == Create(scope, startId) ==>
               Ledger(s)[i].fate != InFlight
    ensures ValueOk(s, CompleteChange(q, scope, startId, rejected))
  {
    var next := CompleteChange(q, scope, startId, rejected);
    CompleteAged(q, s.inputs, scope, startId, rejected, s.now, s.asked);
    forall i | 0 <= i < |Ledger(s)| ensures Upholds(next, s.inputs, s.forgotten, Ledger(s)[i]) {
      assert Upholds(q, s.inputs, s.forgotten, Ledger(s)[i]);
      CompleteUpholds(q, s.inputs, s.forgotten, Ledger(s)[i], scope, startId, rejected, s.now);
    }
  }

  lemma CancelKeepsValue(s: Gateway, q: QueueState, scope: Scope, startId: StartId)
    requires ValueOk(s, q)
    ensures ValueOk(s, CancelChange(q, scope, startId).0)
  {
    var next := CancelChange(q, scope, startId).0;
    forall i | 0 <= i < |Ledger(s)| ensures Upholds(next, s.inputs, s.forgotten, Ledger(s)[i]) {
      assert Upholds(q, s.inputs, s.forgotten, Ledger(s)[i]);
      CancelUpholds(q, s.inputs, s.forgotten, Ledger(s)[i], scope, startId);
    }
  }

  lemma ReleaseKeepsValue(s: Gateway, q: QueueState, scope: Scope, startId: StartId, best: Option<Connection>)
    requires ValueOk(s, q)
    requires ReleaseChoice(q, scope, startId, best) && ReleaseChange(q, scope, startId, best).Success?
    requires forall i :: 0 <= i < |Ledger(s)| ==> Ledger(s)[i].create != Create(scope, startId)
    ensures ValueOk(s, ReleaseChange(q, scope, startId, best).value)
  {
    var next := ReleaseChange(q, scope, startId, best).value;
    ReleaseAged(q, s.inputs, scope, startId, best, s.now, s.asked);
    forall i | 0 <= i < |Ledger(s)| ensures Upholds(next, s.inputs, s.forgotten, Ledger(s)[i]) {
      assert Upholds(q, s.inputs, s.forgotten, Ledger(s)[i]);
      ReleaseUpholds(q, s.inputs, s.forgotten, Ledger(s)[i], scope, startId, best, s.now);
    }
  }

  lemma RolloverKeepsUpholding(s: Gateway, q: QueueState, i: nat)
    requires ValueOk(s, q) && i < |Ledger(s)|
    requires RolloverChange(q, s.inputs, s.now).Success?
    requires Ledger(s)[i].fate == InFlight ==> s.now - Ledger(s)[i].at as real < DISCOVERY_GRACE
    ensures Upholds(RolloverChange(q, s.inputs, s.now).value, s.inputs, s.forgotten + Displaced(q, s.inputs),
                    Ledger(s)[i])
  {
    assert Upholds(q, s.inputs, s.forgotten, Ledger(s)[i]);
    RolloverUpholds(q, s.inputs, s.forgotten, Ledger(s)[i], s.now);
  }

  lemma RolloverKeepsValue(s: Gateway, q: QueueState, t: Gateway, next: QueueState)
    requires ValueOk(s, q)
    requires RolloverChange(q, s.inputs, s.now) == Success(next)
    requires t == s.(forgotten := s.forgotten + Displaced(q, s.inputs))
    requires forall i :: 0 <= i < |Ledger(s)| && Ledger(s)[i].fate == InFlight ==>
               s.now - Ledger(s)[i].at as real < DISCOVERY_GRACE
    ensures ValueOk(t, next)
  {
    assert Aged(next, t.inputs, t.now) by { RolloverAged(q, s.inputs, s.now); }
    assert Requested(next, t.asked) by { RolloverRequested(q, s.inputs, s.now, s.asked); }
    forall i | 0 <= i < |Ledger(t)| ensures Upholds(next, t.inputs, t.forgotten, Ledger(t)[i]) {
      assert Ledger(t) == Ledger(s);
      RolloverKeepsUpholding(s, q, i);
    }
  }

  /** The authorised value agrees with the ledger, also once the create has joined it. */
  lemma AuthorizeKeepsValue(l: Limits, s: Gateway, q: QueueState, create: Create)
    requires ValueOk(s, q) && l.interval >= 0.0
    requires AuthorizeChange(q, create.scope, create.startId, l.interval, s.now).Success?
    ensures ValueOk(s, AuthorizeChange(q, create.scope, create.startId, l.interval, s.now).value)
    ensures Upholds(AuthorizeChange(q, create.scope, create.startId, l.interval, s.now).value,
                    s.inputs, s.forgotten, Post(create, Ceil(s.now), InFlight))
    ensures forall i :: 0 <= i < |Ledger(s)| ==>
              Ledger(s)[i].create != create && (Ceil(s.now) - Ledger(s)[i].at) as real >= l.interval
  {
    var next := AuthorizeChange(q, create.scope, create.startId, l.interval, s.now).value;
    AuthorizeAged(q, s.inputs, create, l.interval, s.now, s.asked);
    forall i | 0 <= i < |Ledger(s)|
      ensures Upholds(next, s.inputs, s.forgotten, Ledger(s)[i])
      ensures Ledger(s)[i].create != create && (Ceil(s.now) - Ledger(s)[i].at) as real >= l.interval
    {
      assert Upholds(q, s.inputs, s.forgotten, Ledger(s)[i]);
      AuthorizeUpholds(q, s.inputs, s.forgotten, Ledger(s)[i], create, l.interval, s.now);
    }
  }

  lemma EnqueueStep(l: Limits, s: Gateway, step: Step)
    requires ValuesOk(s) && step.Enqueue? && Enabled(l, s, step)
    ensures ValuesOk(Apply(l, s, step))
  {
    hide Aged, Requested, Upholds, Loaded, EnqueueChange, CompleteChange, CancelChange;
    hide ReleaseChange, RolloverChange, AuthorizeChange, ReleaseChoice, Displaced;
    var t := s.(asked := s.asked + {Create(step.scope, step.startId)});
    var q := Loaded(s.journal);
    LoadedOk(s);
    EnqueueKeepsValue(s, q, step.scope, step.startId, step.predecessor, l.capacity);
    ValuesLoosen(s, t);
    SaveKeepsValues(t, EnqueueChange(q, step.scope, step.startId, step.predecessor, l.capacity, s.now).value.0,
                    step.save);
  }

  lemma CancelStep(l: Limits, s: Gateway, step: Step)
    requires ValuesOk(s) && step.Cancel?
    ensures ValuesOk(Apply(l, s, step))
  {
    hide Aged, Requested, Upholds, Loaded, EnqueueChange, CompleteChange, CancelChange;
    hide ReleaseChange, RolloverChange, AuthorizeChange, ReleaseChoice, Displaced;
    LoadedOk(s);
    CancelKeepsValue(s, Loaded(s.journal), step.scope, step.startId);
    SaveKeepsValues(s, CancelChange(Loaded(s.journal), step.scope, step.startId).0, step.save);
  }

  lemma CompleteStep(l: Limits, s: Gateway, step: Step)
    requires ValuesOk(s) && LedgerOk(l, s) && step.Complete? && Enabled(l, s, step)
    ensures ValuesOk(Apply(l, s, step))
  {
    hide Aged, Requested, Upholds, Loaded, EnqueueChange, CompleteChange, CancelChange;
    hide ReleaseChange, RolloverChange, AuthorizeChange, ReleaseChoice, Displaced;
    var j :| 0 <= j < |s.posts| && s.posts[j].create == Create(step.scope, step.startId)
             && s.posts[j].fate != InFlight;
    assert Ledger(s)[j] == s.posts[j];
    LoadedOk(s);
    CompleteKeepsValue(s, Loaded(s.journal), step.scope, step.startId, step.rejected);
    SaveKeepsValues(s, CompleteChange(Loaded(s.journal), step.scope, step.startId, step.rejected), step.save);
  }

  lemma ReleaseStep(l: Limits, s: Gateway, step: Step)
    requires ValuesOk(s) && WorkerOk(s) && step.Release? && Enabled(l, s, step)
    ensures ValuesOk(Apply(l, s, step))
  {
    hide Aged, Requested, Upholds, Loaded, EnqueueChange, CompleteChange, CancelChange;
    hide ReleaseChange, RolloverChange, AuthorizeChange, ReleaseChoice, Displaced;
    LoadedOk(s);
    ReleaseKeepsValue(s, Loaded(s.journal), step.scope, step.startId, step.best);
    SaveKeepsValues(s, ReleaseChange(Loaded(s.journal), step.scope, step.startId, step.best).value, step.save);
  }

  lemma RolloverStep(l: Limits, s: Gateway, step: Step)
    requires ValuesOk(s) && LedgerOk(l, s) && step.Rollover? && Enabled(l, s, step)
    ensures ValuesOk(Apply(l, s, step))
    ensures forall create :: create in Apply(l, s, step).forgotten ==> AskedAgain(s.asked, create)
  {
    hide Aged, Requested, Upholds, Loaded;
    var q := Loaded(s.journal);
    var t := s.(forgotten := s.forgotten + Displaced(q, s.inputs));
    var next := RolloverChange(q, s.inputs, s.now).value;
    LoadedOk(s);
    RolloverKeepsValue(s, q, t, next);
    ValuesLoosen(s, t);
    SaveKeepsValues(t, next, step.save);
    DisplacedWereAskedAgain(q, s.inputs, s.now, s.asked);
  }

  lemma LateWriteStep(l: Limits, s: Gateway, step: Step)
    requires ValuesOk(s) && step.LateWrite? && Enabled(l, s, step)
    ensures ValuesOk(Apply(l, s, step))
  {
    hide Aged, Requested, Upholds, Loaded, EnqueueChange, CompleteChange, CancelChange;
    hide ReleaseChange, RolloverChange, AuthorizeChange, ReleaseChoice, Displaced;
    var t := Apply(l, s, step);
    assert Ledger(t) == Ledger(s);
    ValueLoosens(s, t, step.write.data);
    ValueLoosens(s, t, s.cache);
    assert forall w :: w in t.flying ==> w.expected < t.version;
  }

  /** A confirmed authorisation adds its create to the ledger; any other outcome leaves the ledger alone. */
  lemma AuthorizeStep(l: Limits, s: Gateway, step: Step)
    requires ValuesOk(s) && l.interval >= 0.0 && step.Authorize? && Enabled(l, s, step)
    ensures ValuesOk(Apply(l, s, step))
    ensures var t := Apply(l, s, step);
            t.worker.Authorised? ==>
              && t.worker.create == s.worker.create && t.worker.at == Ceil(s.now)
              && forall i :: 0 <= i < |s.posts| ==>
                   && s.posts[i].create != t.worker.create
                   && (t.worker.at - s.posts[i].at) as real >= l.interval
  {
    hide Aged, Requested, Upholds, Loaded, EnqueueChange, CompleteChange, CancelChange;
    hide ReleaseChange, RolloverChange, AuthorizeChange, ReleaseChoice, Displaced;
    var create, idle, q := s.worker.create, s.(worker := Idle), Loaded(s.journal);
    var change := AuthorizeChange(q, create.scope, create.startId, l.interval, s.now);
    LoadedOk(s);
    assert Ledger(idle) == Ledger(s) == s.posts;
    ValuesLoosen(s, idle);
    ValueLoosens(s, idle, q);
    if change.Success? {
      AuthorizeKeepsValue(l, idle, q, create);
      SaveKeepsValues(idle, change.value, step.save);
      var saved := AfterSave(idle, change.value, step.save);
      if step.save == Confirmed && !step.fenced {
        JoinLedger(saved, Authorised(create, Ceil(s.now)));
      }
    }
  }

  lemma JoinLedger(s: Gateway, worker: Worker)
    requires ValuesOk(s) && s.worker == Idle && worker.Authorised?
    requires s.cache == s.journal && forall w :: w in s.flying ==> w.expected < s.version
    requires Upholds(s.journal, s.inputs, s.forgotten, Post(worker.create, worker.at, InFlight))
    ensures ValuesOk(s.(worker := worker))
  {
    var t := s.(worker := worker);
    forall i | 0 <= i < |Ledger(t)| ensures Upholds(t.journal, t.inputs, t.forgotten, Ledger(t)[i]) {
      if i < |s.posts| {
        assert Ledger(t)[i] == Ledger(s)[i];
        assert Upholds(s.journal, s.inputs, s.forgotten, Ledger(s)[i]);
      }
    }
  }

  // ---------------------------------------------------------------- counting Pods

  lemma SubsetCard<T>(a: set<T>, b: set<T>)
    requires a <= b
    ensures |a| <= |b|
  {
    assert |b - a| == |b| - |a|;
  }

  /** Posts with distinct creates are no more than the creates they are for. */
  lemma {:induction false} PostsCard(indices: set<nat>, posts: seq<Post>, creates: set<Create>)
    requires forall i :: i in indices ==> i < |posts| && posts[i].create in creates
    requires forall i, j :: 0 <= i < j < |posts| ==> posts[i].create != posts[j].create
    ensures |indices| <= |creates|
  {
    if indices != {} {
      var i :| i in indices;
      PostsCard(indices - {i}, posts, creates - {posts[i].create});
    }
  }

  /** A create whose Pod is still to appear is among those admission counts, unless its record was displaced. */
  lemma InFlightIsUncertain(l: Limits, s: Gateway, i: nat)
    requires ValuesOk(s) && LedgerOk(l, s) && i < |s.posts|
    requires s.posts[i].fate == InFlight && s.posts[i].create !in s.forgotten
    ensures s.posts[i].create in Unresolved(s.cache, s.now) && s.posts[i].create in Uncertain(l, s)
    ensures s.posts[i].create in Unresolved(s.journal, s.now)
  {
    hide Aged, Requested;
    var p := s.posts[i];
    assert Ledger(s)[i] == p;
    assert Upholds(s.cache, s.inputs, s.forgotten, Ledger(s)[i]);
    assert Upholds(s.journal, s.inputs, s.forgotten, Ledger(s)[i]);
    CoveredIsUnresolved(s.cache, p.create, p.at, s.now);
    CoveredIsUnresolved(s.journal, p.create, p.at, s.now);
    forall j: nat | j < |s.posts| && s.posts[j].fate == Visible ensures s.posts[j].create != p.create {
      assert Ledger(s)[j] == s.posts[j];
    }
  }

  lemma CoveredIsUnresolved(q: QueueState, create: Create, at: int, now: real)
    requires Covered(q, create, at) && now - at as real < DISCOVERY_GRACE
    ensures create in Unresolved(q, now)
  {
    assert create == Create(Scope(create.scope.round, create.scope.hotkey), create.startId);
  }

  /** Live creates whose Pod is still to appear, apart from displaced ones, and those displaced. */
  function CountedSet(posts: seq<Post>, forgotten: set<Create>): set<nat> {
    set i: nat | i < |posts| && posts[i].fate == InFlight && posts[i].create !in forgotten
  }

  function DisplacedSet(posts: seq<Post>, forgotten: set<Create>): set<nat> {
    set i: nat | i < |posts| && posts[i].fate == InFlight && posts[i].create in forgotten
  }

  lemma LiveSplits(posts: seq<Post>, forgotten: set<Create>)
    ensures |LiveSet(posts)|
            <= |VisibleSet(posts)| + |CountedSet(posts, forgotten)| + |DisplacedSet(posts, forgotten)|
  {
    var rest := CountedSet(posts, forgotten) + DisplacedSet(posts, forgotten);
    assert LiveSet(posts) == VisibleSet(posts) + rest;
  }

  /** When admission finds capacity there is room for one more Pod beside those that are listed or still to appear. */
  lemma CapacityIsRoom(l: Limits, s: Gateway)
    requires ValuesOk(s) && LedgerOk(l, s) && s.worker == Idle && HasCapacity(l, s)
    ensures |LiveSet(s.posts)| < l.maxPods + |s.forgotten|
  {
    hide ValuesOk, Uncertain, LiveSet, VisibleSet;
    forall i | i in CountedSet(s.posts, s.forgotten) ensures s.posts[i].create in Uncertain(l, s) {
      InFlightIsUncertain(l, s, i);
    }
    assert Ledger(s) == s.posts;
    PostsCard(CountedSet(s.posts, s.forgotten), s.posts, Uncertain(l, s));
    PostsCard(DisplacedSet(s.posts, s.forgotten), s.posts, s.forgotten);
    LiveSplits(s.posts, s.forgotten);
  }

  // ---------------------------------------------------------------- every step keeps the invariant

  lemma AskedAgainStays(asked: set<Create>, more: set<Create>, create: Create)
    requires AskedAgain(asked, create) && asked <= more
    ensures AskedAgain(more, create)
  {
  }

  /** Steps that leave dispatched creates, the worker and its operations alone. */
  lemma UndisturbedStep(l: Limits, s: Gateway, t: Gateway)
    requires LedgerOk(l, s) && WorkerOk(s) && FleetOk(l, s)
    requires t.posts == s.posts && t.worker == s.worker && t.operations == s.operations && t.now == s.now
    requires s.asked <= t.asked && s.forgotten <= t.forgotten
    requires forall create :: create in t.forgotten ==> create in s.forgotten || AskedAgain(s.asked, create)
    ensures LedgerOk(l, t) && WorkerOk(t) && FleetOk(l, t)
  {
    assert Ledger(t) == Ledger(s);
    SubsetCard(s.forgotten, t.forgotten);
    forall create | create in t.forgotten ensures AskedAgain(t.asked, create) {
      AskedAgainStays(s.asked, t.asked, create);
    }
  }

  /** Steps that change the worker, its operations or the fate of a create, but not the journal. */
  lemma LifecycleStep(l: Limits, s: Gateway, step: Step)
    requires Inv(l, s) && Enabled(l, s, step)
    requires step.Acquire? || step.Admit? || step.Dispatch? || step.Forget? || step.Observe?
             || step.Surface? || step.Vanish? || step.Refresh? || step.Tick? || step.Crash? || step.Reload?
    ensures ValuesOk(Apply(l, s, step))
  {
    hide HasCapacity, ReleaseChoice, EnqueueChange, AuthorizeChange, ReleaseChange, CompleteChange, CancelChange;
    hide RolloverChange, FleetOk, WorkerOk, Requested, Aged, Upholds, IsPending;
    var t := Apply(l, s, step);
    assert Loosens(s, t);
    ValuesLoosen(s, t);
  }

  lemma AcquireStep(l: Limits, s: Gateway, step: Step)
    requires Inv(l, s) && Enabled(l, s, step) && step.Acquire?
    ensures WorkerOk(Apply(l, s, step))
  {
    var t := Apply(l, s, step);
    forall i | 0 <= i < |s.posts| ensures s.posts[i].create != Create(step.scope, step.startId) {
      assert Ledger(s)[i] == s.posts[i];
      assert Upholds(s.cache, s.inputs, s.forgotten, Ledger(s)[i]);
    }
  }

  lemma DispatchStep(l: Limits, s: Gateway, step: Step)
    requires Inv(l, s) && Enabled(l, s, step) && step.Dispatch?
    ensures var t := Apply(l, s, step); LedgerOk(l, t) && WorkerOk(t) && FleetOk(l, t)
  {
    var t, n := Apply(l, s, step), |s.posts|;
    assert forall i :: 0 <= i < n ==> Ledger(t)[i] == Ledger(s)[i];
    assert Ledger(t)[n].create == Ledger(s)[n].create && Ledger(t)[n].at == Ledger(s)[n].at;
    SubsetCard(LiveSet(t.posts), LiveSet(s.posts) + {n});
  }

  lemma FateStep(l: Limits, s: Gateway, step: Step)
    requires Inv(l, s) && Enabled(l, s, step) && (step.Surface? || step.Vanish?)
    ensures var t := Apply(l, s, step); LedgerOk(l, t) && WorkerOk(t) && FleetOk(l, t)
  {
    var t := Apply(l, s, step);
    assert forall i :: 0 <= i < |Ledger(s)| ==>
      Ledger(t)[i].create == Ledger(s)[i].create && Ledger(t)[i].at == Ledger(s)[i].at
      && (Ledger(t)[i].fate == InFlight ==> Ledger(s)[i].fate == InFlight);
    SubsetCard(LiveSet(t.posts), LiveSet(s.posts));
  }

  lemma AdmitStep(l: Limits, s: Gateway, step: Step)
    requires Inv(l, s) && Enabled(l, s, step) && step.Admit?
    ensures var t := Apply(l, s, step); LedgerOk(l, t) && WorkerOk(t) && FleetOk(l, t)
  {
    hide ValuesOk, HasCapacity, LiveSet;
    CapacityIsRoom(l, s);
    assert Ledger(Apply(l, s, step)) == Ledger(s);
    hide AskedAgain;
  }

  lemma AuthorizedStep(l: Limits, s: Gateway, step: Step)
    requires l.interval >= 0.0
    requires Inv(l, s) && Enabled(l, s, step) && step.Authorize?
    ensures var t := Apply(l, s, step); LedgerOk(l, t) && WorkerOk(t) && FleetOk(l, t)
  {
    hide ValuesOk, Loaded, AuthorizeChange;
    AuthorizeStep(l, s, step);
    assert Ledger(s) == s.posts;
    assert forall i :: 0 <= i < |s.posts| ==> Ledger(Apply(l, s, step))[i] == s.posts[i];
  }

  lemma OperationsStep(l: Limits, s: Gateway, step: Step)
    requires Inv(l, s) && Enabled(l, s, step)
    requires step.Acquire? || step.Forget? || step.Observe? || step.Tick? || step.Crash?
    ensures var t := Apply(l, s, step); LedgerOk(l, t) && WorkerOk(t) && FleetOk(l, t)
  {
    if step.Acquire? { AcquireStep(l, s, step); }
    hide ValuesOk, Loaded, IsPending;
    assert forall i :: 0 <= i < |Ledger(Apply(l, s, step))| ==> Ledger(Apply(l, s, step))[i] == Ledger(s)[i];
  }

  lemma JournalStepKeepsInvariant(l: Limits, s: Gateway, step: Step)
    requires Inv(l, s) && Enabled(l, s, step)
    requires step.Enqueue? || step.Cancel? || step.Complete? || step.Rollover? || step.Release?
             || step.LateWrite? || step.Reload? || step.Refresh?
    ensures Inv(l, Apply(l, s, step))
  {
    hide ValuesOk, LedgerOk, WorkerOk, FleetOk, HasCapacity, Undispatched, Uncertain;
    hide Loaded, EnqueueChange, CompleteChange, CancelChange, ReleaseChange, RolloverChange, AuthorizeChange;
    if step.Enqueue? { EnqueueStep(l, s, step); }
    else if step.Cancel? { CancelStep(l, s, step); }
    else if step.Complete? { CompleteStep(l, s, step); }
    else if step.Rollover? { RolloverStep(l, s, step); }
    else if step.Release? { ReleaseStep(l, s, step); }
    else if step.LateWrite? { LateWriteStep(l, s, step); }
    else { LifecycleStep(l, s, step); }
    UndisturbedStep(l, s, Apply(l, s, step));
  }

  lemma WorkerStepKeepsInvariant(l: Limits, s: Gateway, step: Step)
    requires l.interval >= 0.0
    requires Inv(l, s) && Enabled(l, s, step)
    requires step.Acquire? || step.Admit? || step.Authorize? || step.Dispatch? || step.Forget? || step.Observe?
             || step.Surface? || step.Vanish? || step.Tick? || step.Crash?
    ensures Inv(l, Apply(l, s, step))
  {
    hide ValuesOk, LedgerOk, WorkerOk, FleetOk, HasCapacity, Undispatched, Uncertain;
    hide Loaded, EnqueueChange, CompleteChange, CancelChange, ReleaseChange, RolloverChange, AuthorizeChange;
    if step.Authorize? { AuthorizeStep(l, s, step); } else { LifecycleStep(l, s, step); }
    if step.Authorize? { AuthorizedStep(l, s, step); }
    else if step.Admit? { AdmitStep(l, s, step); }
    else if step.Dispatch? { DispatchStep(l, s, step); }
    else if step.Surface? || step.Vanish? { FateStep(l, s, step); }
    else { OperationsStep(l, s, step); }
  }

  lemma StepKeepsInvariant(l: Limits, s: Gateway, step: Step)
    requires l.interval >= 0.0
    requires Inv(l, s) && Enabled(l, s, step)
    ensures Inv(l, Apply(l, s, step))
  {
    hide Inv, Enabled, Apply;
    if step.Enqueue? || step.Cancel? || step.Complete? || step.Rollover? || step.Release?
       || step.LateWrite? || step.Reload? || step.Refresh?
    {
      JournalStepKeepsInvariant(l, s, step);
    } else {
      WorkerStepKeepsInvariant(l, s, step);
    }
  }

  // ---------------------------------------------------------------- every run

  lemma StartHasInvariant(l: Limits, s: Gateway)
    requires IsStart(s)
    ensures Inv(l, s)
  {
    assert LiveSet(s.posts) == {};
  }

  lemma {:induction false} RunKeepsInvariant(l: Limits, states: seq<Gateway>)
    requires l.interval >= 0.0 && IsRun(l, states)
    ensures Inv(l, states[|states| - 1])
  {
    hide Inv, Enabled, Apply, IsStart;
    var n := |states| - 1;
    if n == 0 {
      StartHasInvariant(l, states[0]);
    } else {
      RunKeepsInvariant(l, states[..n]);
      assert Follows(l, states[n - 1], states[n]);
      var step :| Enabled(l, states[n - 1], step) && states[n] == Apply(l, states[n - 1], step);
      StepKeepsInvariant(l, states[n - 1], step);
    }
  }

  /** At most one create request is ever sent for a scope and start identifier, whatever crashes, lost replies,
    * uncertain or late journal writes, releases and retries the run contains.
    */
  lemma AtMostOnePost(l: Limits, states: seq<Gateway>)
    requires l.interval >= 0.0 && IsRun(l, states)
    ensures var posts := states[|states| - 1].posts;
            forall i, j :: 0 <= i < j < |posts| ==> posts[i].create != posts[j].create
  {
    RunKeepsInvariant(l, states);
    InvariantDistinct(l, states[|states| - 1]);
  }

  lemma InvariantDistinct(l: Limits, s: Gateway)
    requires Inv(l, s)
    ensures forall i, j :: 0 <= i < j < |s.posts| ==> s.posts[i].create != s.posts[j].create
    ensures forall i :: 0 < i < |s.posts| ==> (s.posts[i].at - s.posts[i - 1].at) as real >= l.interval
    ensures |LiveSet(s.posts)| <= l.maxPods + |s.forgotten|
    ensures forall create :: create in s.forgotten ==> AskedAgain(s.asked, create)
  {
    hide ValuesOk, WorkerOk;
    assert forall i :: 0 <= i < |s.posts| ==> Ledger(s)[i] == s.posts[i];
  }

  /** Create requests are spaced: the i-th and the j-th carry times at least j - i intervals apart. */
  lemma PostsAreSpaced(l: Limits, states: seq<Gateway>, i: nat, j: nat)
    requires l.interval >= 0.0 && IsRun(l, states)
    requires i <= j < |states[|states| - 1].posts|
    ensures var posts := states[|states| - 1].posts;
            (posts[j].at - posts[i].at) as real >= (j - i) as real * l.interval
  {
    hide Inv;
    RunKeepsInvariant(l, states);
    InvariantDistinct(l, states[|states| - 1]);
    hide IsRun;
    Spaced(states[|states| - 1].posts, l.interval, i, j);
  }

  lemma {:induction false} Spaced(posts: seq<Post>, interval: real, i: nat, j: nat)
    requires forall k :: 0 < k < |posts| ==> (posts[k].at - posts[k - 1].at) as real >= interval
    requires i <= j < |posts|
    ensures (posts[j].at - posts[i].at) as real >= (j - i) as real * interval
  {
    if i < j {
      Spaced(posts, interval, i, j - 1);
      assert (j - i) as real * interval == (j - 1 - i) as real * interval + interval;
    }
  }

  /** Listed Pods and dispatched creates whose Pod may still appear never outnumber the fleet bound by more than
    * the retained creates that a rollover displaced.
    */
  lemma FleetIsBounded(l: Limits, states: seq<Gateway>)
    requires l.interval >= 0.0 && IsRun(l, states)
    ensures var s := states[|states| - 1]; |LiveSet(s.posts)| <= l.maxPods + |s.forgotten|
  {
    RunKeepsInvariant(l, states);
    InvariantDistinct(l, states[|states| - 1]);
  }

  /** No hotkey asks for one start identifier in two rounds. */
  ghost predicate StartsAreFresh(asked: set<Create>) {
    forall a, b :: a in asked && b in asked && a.scope.hotkey == b.scope.hotkey && a.startId == b.startId
                   ==> a.scope.round == b.scope.round
  }

  /** The fleet bound holds outright when no hotkey asks for one start identifier in two rounds. */
  lemma FleetIsBoundedWithFreshStarts(l: Limits, states: seq<Gateway>)
    requires l.interval >= 0.0 && IsRun(l, states)
    requires StartsAreFresh(states[|states| - 1].asked)
    ensures |LiveSet(states[|states| - 1].posts)| <= l.maxPods
  {
    RunKeepsInvariant(l, states);
    InvariantDistinct(l, states[|states| - 1]);
    assert states[|states| - 1].forgotten == {};
  }

  /** A create whose Pod is still to appear is counted as unresolved, in the journal and in the cached copy that
    * admission reads, unless a rollover displaced its record.
    */
  lemma InFlightStaysUnresolved(l: Limits, states: seq<Gateway>, i: nat)
    requires l.interval >= 0.0 && IsRun(l, states)
    requires i < |states[|states| - 1].posts|
    requires states[|states| - 1].posts[i].fate == InFlight
    ensures var s := states[|states| - 1];
            s.posts[i].create in s.forgotten
            || (s.posts[i].create in Unresolved(s.journal, s.now) && s.posts[i].create in Unresolved(s.cache, s.now))
  {
    RunKeepsInvariant(l, states);
    var s := states[|states| - 1];
    hide ValuesOk, LedgerOk, WorkerOk, FleetOk;
    if s.posts[i].create !in s.forgotten { InFlightIsUncertain(l, s, i); }
  }

  /** An authorisation is released only if its create request was never sent. */
  lemma ReleasedCreateWasNotSent(l: Limits, states: seq<Gateway>, step: Step)
    requires l.interval >= 0.0 && IsRun(l, states)
    requires step.Release? && Enabled(l, states[|states| - 1], step)
    ensures var posts := states[|states| - 1].posts;
            forall i :: 0 <= i < |posts| ==> posts[i].create != Create(step.scope, step.startId)
  {
    RunKeepsInvariant(l, states);
    hide ValuesOk, LedgerOk, FleetOk;
  }
}
