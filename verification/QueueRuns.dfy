/** Runs of the start queue: what every journal that its calls can produce satisfies. */
module QueueRuns {
  import opened Wrappers
  import opened AdmissionQueue

  datatype Change =
    | Enqueue(scope: Scope, startId: StartId, predecessor: Option<StartId>)
    | Authorize(scope: Scope, startId: StartId)
    | Release(scope: Scope, startId: StartId, best: Option<Connection>)
    | Complete(scope: Scope, startId: StartId, rejected: bool)
    | Cancel(scope: Scope, startId: StartId)
    | Rollover(round: nat)

  /** One call, when it reads the clock, and whether its write lands, at once or as the next write to do so. */
  datatype Call = Call(change: Change, now: real, lands: bool)

  datatype Limits = Limits(interval: real, capacity: nat)

  /** The journal and the round that it is open for. */
  datatype State = State(queue: QueueState, round: nat)

  /** The journal that a call writes, unless it raises. */
  function Written(l: Limits, q: QueueState, change: Change, now: real): Option<QueueState> {
    match change
    case Enqueue(scope, startId, predecessor) =>
      var r := EnqueueChange(Loaded(q), scope, startId, predecessor, l.capacity, now);
      if r.Success? then Some(r.value.0) else None
    case Authorize(scope, startId) =>
      var r := AuthorizeChange(Loaded(q), scope, startId, l.interval, now);
      if r.Success? then Some(r.value) else None
    case Release(scope, startId, best) =>
      var r := ReleaseChange(Loaded(q), scope, startId, best);
      if r.Success? then Some(r.value) else None
    case Complete(scope, startId, rejected) => Some(CompleteChange(Loaded(q), scope, startId, rejected))
    case Cancel(scope, startId) => Some(CancelChange(Loaded(q), scope, startId).0)
    case Rollover(round) =>
      var r := RolloverChange(Loaded(q), round, now);
      if r.Success? then Some(r.value) else None
  }

  /** Starts are queued for the open round; a release puts the latest remaining attempt on file. */
  ghost predicate Allowed(s: State, call: Call) {
    && (call.change.Enqueue? ==> call.change.scope.round == s.round)
    && (call.change.Release? ==>
          ReleaseChoice(Loaded(s.queue), call.change.scope, call.change.startId, call.change.best))
  }

  predicate Changes(l: Limits, s: State, call: Call) {
    call.lands && Written(l, s.queue, call.change, call.now).Some?
  }

  function Next(l: Limits, s: State, call: Call): State {
    if !Changes(l, s, call) then s
    else State(Written(l, s.queue, call.change, call.now).value,
               if call.change.Rollover? then call.change.round else s.round)
  }

  function After(l: Limits, s: State, calls: seq<Call>): State {
    if calls == [] then s else Next(l, After(l, s, calls[..|calls| - 1]), calls[|calls| - 1])
  }

  ghost predicate AllAllowed(l: Limits, s: State, calls: seq<Call>) {
    forall i :: 0 <= i < |calls| ==> Allowed(After(l, s, calls[..i]), calls[i])
  }

  lemma AllowedBefore(l: Limits, s: State, calls: seq<Call>)
    requires AllAllowed(l, s, calls) && calls != []
    ensures AllAllowed(l, s, calls[..|calls| - 1])
    ensures Allowed(After(l, s, calls[..|calls| - 1]), calls[|calls| - 1])
  {
    var fewer := calls[..|calls| - 1];
    forall i | 0 <= i < |fewer| ensures Allowed(After(l, s, fewer[..i]), fewer[i]) {
      assert fewer[..i] == calls[..i];
    }
  }

  // ---------------------------------------------------------------- every journal is well formed

  lemma EmptyIsWellFormed(round: nat)
    ensures WellFormed(EMPTY_QUEUE, round)
  {
  }

  ghost predicate Sound(l: Limits, s: State) {
    WellFormed(s.queue, s.round) && |s.queue.pending| <= l.capacity
  }

  /** Calls that carry another round than the open one change nothing. */
  lemma OtherRoundsDoNothing(l: Limits, s: State, call: Call)
    requires WellFormed(s.queue, s.round) && !call.change.Enqueue? && !call.change.Rollover?
    requires call.change.scope.round != s.round
    ensures Next(l, s, call) == s
  {
    LoadedIsIdentity(s.queue, s.round);
    SingleRound(s.queue, s.round);
  }

  lemma CallKeepsQueue(l: Limits, s: State, call: Call)
    requires l.interval > 0.0 && Sound(l, s) && Allowed(s, call)
    ensures Sound(l, Next(l, s, call))
  {
    LoadedIsIdentity(s.queue, s.round);
    var q, now := s.queue, call.now;
    if Changes(l, s, call) {
      if !call.change.Enqueue? && !call.change.Rollover? && call.change.scope.round != s.round {
        OtherRoundsDoNothing(l, s, call);
      } else {
        hide WellFormed, Loaded;
        match call.change
        case Enqueue(scope, startId, predecessor) =>
          EnqueueKeepsQueue(q, scope, startId, predecessor, l.capacity, now);
          EnqueueKeepsOrder(q, scope, startId, predecessor, l.capacity, now);
        case Authorize(scope, startId) => AuthorizeKeepsQueue(q, scope, startId, l.interval, now);
        case Release(scope, startId, best) => ReleaseKeepsQueue(q, scope, startId, best);
        case Complete(scope, startId, rejected) => CompleteKeepsQueue(q, scope, startId, rejected);
        case Cancel(scope, startId) => CancelKeepsQueue(q, scope, startId);
        case Rollover(round) => RolloverKeepsQueue(q, s.round, round, now);
        PendingStaysBounded(l, s, call);
      }
    }
  }

  lemma PendingStaysBounded(l: Limits, s: State, call: Call)
    requires Loaded(s.queue) == s.queue && !call.change.Enqueue?
    ensures |Next(l, s, call).queue.pending| <= |s.queue.pending|
  {
    hide Loaded;
    assert Next(l, s, call).queue.pending.Keys <= s.queue.pending.Keys;
    FewerKeys(Next(l, s, call).queue.pending, s.queue.pending);
  }

  lemma FewerKeys<K, V>(some: map<K, V>, more: map<K, V>)
    requires some.Keys <= more.Keys
    ensures |some| <= |more|
  {
    assert |more.Keys - some.Keys| == |more.Keys| - |some.Keys|;
    assert |some| == |some.Keys| && |more| == |more.Keys|;
  }

  lemma {:induction false} CallsKeepQueue(l: Limits, s: State, calls: seq<Call>)
    requires l.interval > 0.0 && Sound(l, s) && AllAllowed(l, s, calls)
    ensures Sound(l, After(l, s, calls))
  {
    if calls != [] {
      AllowedBefore(l, s, calls);
      var fewer := calls[..|calls| - 1];
      CallsKeepQueue(l, s, fewer);
      CallKeepsQueue(l, After(l, s, fewer), calls[|calls| - 1]);
    }
  }

  /** The attempt on file for a hotkey is its latest authorised record, and an authorised entry's own. */
  ghost predicate AttemptsAreLatest(q: QueueState) {
    && (forall h :: h in q.attempts ==>
          Connection(h, q.attempts[h].startId) in q.history && q.history[Connection(h, q.attempts[h].startId)] == q.attempts[h])
    && (forall c :: c in q.history && q.history[c].submitted ==>
          c.hotkey in q.attempts && q.history[c].at <= q.attempts[c.hotkey].at
          && (q.history[c].at == q.attempts[c.hotkey].at ==> q.history[c] == q.attempts[c.hotkey]))
    && (forall h :: h in q.pending && q.pending[h].submitted ==> h in q.attempts && q.attempts[h].startId == q.pending[h].startId)
  }

  /** Whatever calls are made, in any order, raised or unconfirmed: places in the queue are distinct and within its
    * capacity, every record leads in one hop to one of its own start, and the attempt on file is the latest.
    */
  lemma RunKeepsQueue(l: Limits, round: nat, calls: seq<Call>)
    requires l.interval > 0.0 && AllAllowed(l, State(EMPTY_QUEUE, round), calls)
    ensures var q := After(l, State(EMPTY_QUEUE, round), calls).queue;
            && |q.pending| <= l.capacity
            && (forall g, h :: g in q.pending && h in q.pending && g != h ==> q.pending[g].sequence != q.pending[h].sequence)
            && (forall c :: c in q.history ==> Canonical(q, Connection(c.hotkey, q.history[c].startId)))
            && AttemptsAreLatest(q)
  {
    var s := State(EMPTY_QUEUE, round);
    EmptyIsWellFormed(round);
    CallsKeepQueue(l, s, calls);
    Promises(After(l, s, calls).queue, After(l, s, calls).round);
  }

  lemma Promises(q: QueueState, round: nat)
    requires WellFormed(q, round)
    ensures forall c :: c in q.history ==> Canonical(q, Connection(c.hotkey, q.history[c].startId))
    ensures AttemptsAreLatest(q)
  {
    forall h | h in q.attempts
      ensures Connection(h, q.attempts[h].startId) in q.history && q.history[Connection(h, q.attempts[h].startId)] == q.attempts[h]
    {
      assert AttemptOk(q, h);
    }
    forall c | c in q.history
      ensures Canonical(q, Connection(c.hotkey, q.history[c].startId))
      ensures q.history[c].submitted ==>
                c.hotkey in q.attempts && q.history[c].at <= q.attempts[c.hotkey].at
                && (q.history[c].at == q.attempts[c.hotkey].at ==> q.history[c] == q.attempts[c.hotkey])
    {
      assert RecordOk(q, round, c);
      if q.history[c].submitted {
        assert AttemptOk(q, c.hotkey) && Apart(q, c, Connection(c.hotkey, q.attempts[c.hotkey].startId));
      }
    }
    forall h | h in q.pending && q.pending[h].submitted
      ensures h in q.attempts && q.attempts[h].startId == q.pending[h].startId
    {
      assert EntryOk(q, round, h);
    }
  }

  // ---------------------------------------------------------------- authorisations are spaced

  /** The times of all authorisations whose write landed, whatever became of the create. */
  function Authorisations(l: Limits, s: State, calls: seq<Call>): seq<int> {
    if calls == [] then []
    else
      var fewer, last := calls[..|calls| - 1], calls[|calls| - 1];
      Authorisations(l, s, fewer)
      + if Authorises(l, After(l, s, fewer), last) then [Ceil(last.now)] else []
  }

  predicate Authorises(l: Limits, s: State, call: Call) {
    call.change.Authorize? && Changes(l, s, call)
  }

  /** Only an authorisation moves the clock of authorisations, and it waits until it is due. */
  lemma AuthorisationClock(l: Limits, s: State, call: Call)
    ensures Next(l, s, call).queue.lastCreateAt == if Authorises(l, s, call) then Some(Ceil(call.now)) else s.queue.lastCreateAt
    ensures l.interval > 0.0 && Authorises(l, s, call) && s.queue.lastCreateAt.Some? ==>
              (Ceil(call.now) - s.queue.lastCreateAt.value) as real >= l.interval
  {
    var q := Loaded(s.queue);
    assert q.lastCreateAt == s.queue.lastCreateAt;
    hide Loaded, EnqueueChange, AuthorizeChange, ReleaseChange, CompleteChange, CancelChange, RolloverChange;
    if Changes(l, s, call) {
      match call.change
      case Authorize(scope, startId) => AuthorizeMovesClock(q, scope, startId, l.interval, call.now);
      case Enqueue(scope, startId, predecessor) => EnqueueKeepsClock(q, scope, startId, predecessor, l.capacity, call.now);
      case Release(scope, startId, best) => OthersKeepClock(q, scope, startId, best, false, 0, call.now);
      case Complete(scope, startId, rejected) => OthersKeepClock(q, scope, startId, None, rejected, 0, call.now);
      case Cancel(scope, startId) => OthersKeepClock(q, scope, startId, None, false, 0, call.now);
      case Rollover(round) => OthersKeepClock(q, Scope(round, ""), "", None, false, round, call.now);
    }
  }

  lemma AuthorizeMovesClock(q: QueueState, scope: Scope, startId: StartId, interval: real, now: real)
    requires AuthorizeChange(q, scope, startId, interval, now).Success?
    ensures AuthorizeChange(q, scope, startId, interval, now).value.lastCreateAt == Some(Ceil(now))
    ensures interval > 0.0 && q.lastCreateAt.Some? ==> (Ceil(now) - q.lastCreateAt.value) as real >= interval
  {
  }

  lemma EnqueueKeepsClock(q: QueueState, scope: Scope, startId: StartId, predecessor: Option<StartId>, capacity: nat, now: real)
    requires EnqueueChange(q, scope, startId, predecessor, capacity, now).Success?
    ensures EnqueueChange(q, scope, startId, predecessor, capacity, now).value.0.lastCreateAt == q.lastCreateAt
  {
  }

  lemma OthersKeepClock(q: QueueState, scope: Scope, startId: StartId, best: Option<Connection>, rejected: bool, round: nat,
                        now: real)
    ensures var r := ReleaseChange(q, scope, startId, best); r.Success? ==> r.value.lastCreateAt == q.lastCreateAt
    ensures CompleteChange(q, scope, startId, rejected).lastCreateAt == q.lastCreateAt
    ensures CancelChange(q, scope, startId).0.lastCreateAt == q.lastCreateAt
    ensures var r := RolloverChange(q, round, now); r.Success? ==> r.value.lastCreateAt == q.lastCreateAt
  {
  }

  lemma {:induction false} LastAuthorisation(l: Limits, round: nat, calls: seq<Call>)
    ensures var s, times := State(EMPTY_QUEUE, round), Authorisations(l, State(EMPTY_QUEUE, round), calls);
            After(l, s, calls).queue.lastCreateAt == if times == [] then None else Some(times[|times| - 1])
  {
    hide Next, Changes;
    if calls != [] {
      var fewer := calls[..|calls| - 1];
      LastAuthorisation(l, round, fewer);
      AuthorisationClock(l, After(l, State(EMPTY_QUEUE, round), fewer), calls[|calls| - 1]);
    }
  }

  lemma {:induction false} NextAuthorisationIsDue(l: Limits, round: nat, calls: seq<Call>, k: nat)
    requires l.interval > 0.0
    requires 0 < k < |Authorisations(l, State(EMPTY_QUEUE, round), calls)|
    ensures var times := Authorisations(l, State(EMPTY_QUEUE, round), calls);
            (times[k] - times[k - 1]) as real >= l.interval
  {
    hide Next, Changes;
    var s, fewer, last := State(EMPTY_QUEUE, round), calls[..|calls| - 1], calls[|calls| - 1];
    LastAuthorisation(l, round, fewer);
    AuthorisationClock(l, After(l, s, fewer), last);
    hide After;
    if k < |Authorisations(l, s, fewer)| {
      NextAuthorisationIsDue(l, round, fewer, k);
    }
  }

  /** The i-th and the j-th authorisation are at least j - i intervals apart, over every run of the queue. */
  lemma {:induction false} AuthorisationsAreSpaced(l: Limits, round: nat, calls: seq<Call>, i: nat, j: nat)
    requires l.interval > 0.0
    requires i <= j < |Authorisations(l, State(EMPTY_QUEUE, round), calls)|
    ensures var times := Authorisations(l, State(EMPTY_QUEUE, round), calls);
            (times[j] - times[i]) as real >= (j - i) as real * l.interval
    decreases j - i
  {
    hide Authorisations;
    if i < j {
      AuthorisationsAreSpaced(l, round, calls, i, j - 1);
      NextAuthorisationIsDue(l, round, calls, j);
      assert (j - i) as real * l.interval == (j - 1 - i) as real * l.interval + l.interval;
    }
  }

  // ---------------------------------------------------------------- releasing an authorisation

  /** The entry of the open round is queued for this start and authorised. */
  predicate StillAuthorised(s: State, round: nat, hotkey: Hotkey, startId: StartId) {
    IsPending(s.queue, Scope(round, hotkey), startId) && s.queue.pending[hotkey].submitted
  }

  /** The authorised records of a hotkey, but for one, are the same in both journals. */
  ghost predicate SameOthers(q: QueueState, r: QueueState, hotkey: Hotkey, own: Connection) {
    forall c: Connection :: c.hotkey == hotkey && c != own ==>
      && (c in q.history && q.history[c].submitted <==> c in r.history && r.history[c].submitted)
      && (c in q.history && q.history[c].submitted ==> q.history[c] == r.history[c])
  }

  lemma EnqueueKeepsOthers(q: QueueState, scope: Scope, startId: StartId, predecessor: Option<StartId>, capacity: nat,
                           now: real, hotkey: Hotkey, own: Connection)
    requires WellFormed(q, scope.round) && hotkey in q.pending
    requires EnqueueChange(q, scope, startId, predecessor, capacity, now).Success?
    ensures var r := EnqueueChange(q, scope, startId, predecessor, capacity, now).value.0;
            r.pending[hotkey] == q.pending[hotkey] && SameOthers(q, r, hotkey, own)
  {
    SingleRound(q, scope.round);
    hide WellFormed;
  }

  lemma AuthorizeKeepsOthers(q: QueueState, scope: Scope, startId: StartId, interval: real, now: real, hotkey: Hotkey,
                             own: Connection)
    requires hotkey in q.pending && q.pending[hotkey].submitted
    requires AuthorizeChange(q, scope, startId, interval, now).Success?
    ensures var r := AuthorizeChange(q, scope, startId, interval, now).value;
            r.pending[hotkey] == q.pending[hotkey] && SameOthers(q, r, hotkey, own)
  {
  }

  lemma ReleaseKeepsOthers(q: QueueState, scope: Scope, startId: StartId, best: Option<Connection>, hotkey: Hotkey,
                           own: Connection)
    requires hotkey in q.pending && ReleaseChange(q, scope, startId, best).Success?
    requires own == Connection(hotkey, q.pending[hotkey].startId)
    ensures SameOthers(q, ReleaseChange(q, scope, startId, best).value, hotkey, own)
    ensures var r := ReleaseChange(q, scope, startId, best).value;
            hotkey in r.pending && (r.pending[hotkey].submitted == q.pending[hotkey].submitted ==> r.pending[hotkey] == q.pending[hotkey])
  {
  }

  lemma CompleteKeepsOthers(q: QueueState, scope: Scope, startId: StartId, rejected: bool, hotkey: Hotkey, own: Connection)
    requires WellFormed(q, scope.round) && hotkey in q.pending && q.pending[hotkey].submitted
    requires own == Connection(hotkey, q.pending[hotkey].startId)
    ensures var r := CompleteChange(q, scope, startId, rejected);
            && SameOthers(q, r, hotkey, own) && (hotkey in r.pending ==> r.pending[hotkey] == q.pending[hotkey])
  {
    EntryAndRecord(q, scope.round, hotkey, own);
    hide WellFormed;
  }

  lemma RolloverKeepsOthers(q: QueueState, previous: nat, round: nat, now: real, hotkey: Hotkey, own: Connection)
    requires WellFormed(q, previous) && hotkey in q.pending
    ensures RolloverChange(q, round, now).Success?
    ensures var r := RolloverChange(q, round, now).value;
            hotkey in r.pending ==> round == previous && r.pending[hotkey] == q.pending[hotkey] && SameOthers(q, r, hotkey, own)
  {
    RolloverSucceeds(q, previous, round, now);
    hide WellFormed, RolloverChange;
  }

  /** No call touches the hotkey's other authorised records, nor the entry's place, while the entry stays authorised. */
  lemma CallKeepsOthers(l: Limits, s: State, call: Call, hotkey: Hotkey, startId: StartId)
    requires l.interval > 0.0 && Sound(l, s) && Allowed(s, call)
    requires StillAuthorised(s, s.round, hotkey, startId)
    requires StillAuthorised(Next(l, s, call), s.round, hotkey, startId)
    ensures Next(l, s, call).round == s.round
    ensures Next(l, s, call).queue.pending[hotkey] == s.queue.pending[hotkey]
    ensures SameOthers(s.queue, Next(l, s, call).queue, hotkey, Connection(hotkey, startId))
  {
    hide WellFormed, Loaded, SameOthers, EnqueueChange, AuthorizeChange, ReleaseChange, CompleteChange, RolloverChange;
    LoadedIsIdentity(s.queue, s.round);
    var q, own := s.queue, Connection(hotkey, startId);
    if !Changes(l, s, call) {
      SameAsItself(q, hotkey, own);
    } else if !call.change.Enqueue? && !call.change.Rollover? && call.change.scope.round != s.round {
      OtherRoundsDoNothing(l, s, call);
      SameAsItself(q, hotkey, own);
    } else {
      match call.change
      case Enqueue(scope, start, predecessor) => EnqueueKeepsOthers(q, scope, start, predecessor, l.capacity, call.now, hotkey, own);
      case Authorize(scope, start) => AuthorizeKeepsOthers(q, scope, start, l.interval, call.now, hotkey, own);
      case Release(scope, start, best) => ReleaseKeepsOthers(q, scope, start, best, hotkey, own);
      case Complete(scope, start, rejected) => CompleteKeepsOthers(q, scope, start, rejected, hotkey, own);
      case Cancel(scope, start) => CancelKeepsOthers(q, scope, start, hotkey, own);
      case Rollover(round) => RolloverKeepsOthers(q, s.round, round, call.now, hotkey, own);
    }
  }

  lemma SameAsItself(q: QueueState, hotkey: Hotkey, own: Connection)
    ensures SameOthers(q, q, hotkey, own)
  {
  }

  lemma CancelKeepsOthers(q: QueueState, scope: Scope, startId: StartId, hotkey: Hotkey, own: Connection)
    requires hotkey in q.pending && q.pending[hotkey].submitted
    ensures var r := CancelChange(q, scope, startId).0;
            hotkey in r.pending && r.pending[hotkey] == q.pending[hotkey] && SameOthers(q, r, hotkey, own)
  {
  }

  /** The entry stays authorised through all of these calls. */
  ghost predicate StaysAuthorised(l: Limits, s: State, calls: seq<Call>, round: nat, hotkey: Hotkey, startId: StartId) {
    forall i :: 0 <= i <= |calls| ==> StillAuthorised(After(l, s, calls[..i]), round, hotkey, startId)
  }

  lemma {:induction false} CallsKeepOthers(l: Limits, s: State, calls: seq<Call>, hotkey: Hotkey, startId: StartId)
    requires l.interval > 0.0 && Sound(l, s) && AllAllowed(l, s, calls)
    requires StillAuthorised(s, s.round, hotkey, startId) && StaysAuthorised(l, s, calls, s.round, hotkey, startId)
    ensures After(l, s, calls).round == s.round && Sound(l, After(l, s, calls))
    ensures StillAuthorised(After(l, s, calls), s.round, hotkey, startId)
    ensures After(l, s, calls).queue.pending[hotkey] == s.queue.pending[hotkey]
    ensures SameOthers(s.queue, After(l, s, calls).queue, hotkey, Connection(hotkey, startId))
  {
    hide Sound, Next, StillAuthorised;
    CallsKeepQueue(l, s, calls);
    assert calls[..|calls|] == calls;
    assert StillAuthorised(After(l, s, calls[..|calls|]), s.round, hotkey, startId);
    if calls == [] {
      SameAsItself(s.queue, hotkey, Connection(hotkey, startId));
    } else {
      var fewer := calls[..|calls| - 1];
      forall i | 0 <= i <= |fewer| ensures StillAuthorised(After(l, s, fewer[..i]), s.round, hotkey, startId) {
        assert fewer[..i] == calls[..i];
      }
      AllowedBefore(l, s, calls);
      CallsKeepOthers(l, s, fewer, hotkey, startId);
      CallKeepsOthers(l, After(l, s, fewer), calls[|calls| - 1], hotkey, startId);
      SameOthersTransitively(s.queue, After(l, s, fewer).queue, After(l, s, calls).queue, hotkey, Connection(hotkey, startId));
    }
  }

  lemma SameOthersTransitively(q: QueueState, r: QueueState, t: QueueState, hotkey: Hotkey, own: Connection)
    requires SameOthers(q, r, hotkey, own) && SameOthers(r, t, hotkey, own)
    ensures SameOthers(q, t, hotkey, own)
  {
  }

  /** The release itself, of a journal in which the hotkey's other records are as they were before the authorisation. */
  lemma ReleasedAttempt(s: State, u: State, scope: Scope, startId: StartId, best: Option<Connection>)
    requires WellFormed(s.queue, s.round) && WellFormed(u.queue, s.round) && scope.round == s.round
    requires IsPending(s.queue, scope, startId) && !s.queue.pending[scope.hotkey].submitted
    requires IsPending(u.queue, scope, startId)
    requires u.queue.pending[scope.hotkey] == s.queue.pending[scope.hotkey].(submitted := true)
    requires SameOthers(s.queue, u.queue, scope.hotkey, Connection(scope.hotkey, startId))
    requires ReleaseChoice(u.queue, scope, startId, best)
    ensures ReleaseChange(u.queue, scope, startId, best).Success?
    ensures var h, r := scope.hotkey, ReleaseChange(u.queue, scope, startId, best).value;
            && h in r.pending && r.pending[h] == s.queue.pending[h]
            && (h in r.attempts <==> h in s.queue.attempts) && (h in s.queue.attempts ==> r.attempts[h] == s.queue.attempts[h])
            && SameOthers(s.queue, r, h, Connection(h, startId)) && !Submitted(r, scope, startId)
  {
    var h, c := scope.hotkey, Connection(scope.hotkey, startId);
    EntryAndRecord(u.queue, s.round, h, c);
    EntryAndRecord(s.queue, s.round, h, c);
    SingleRound(s.queue, s.round);
    SingleRound(u.queue, s.round);
    Promises(s.queue, s.round);
    if h in s.queue.attempts { AttemptIsSubmitted(s.queue, s.round, h); }
    hide WellFormed;
    assert c in u.queue.history;
    BestIsAttempt(s.queue, u.queue, scope, c, best);
    hide IsBest, IsAuthorised, AttemptsAreLatest;
  }

  /** What a release puts on file is the attempt that was there before, when all other records are as they were. */
  lemma BestIsAttempt(q: QueueState, u: QueueState, scope: Scope, c: Connection, best: Option<Connection>)
    requires c in u.history && c.hotkey == scope.hotkey && (c in q.history ==> !q.history[c].submitted)
    requires SameOthers(q, u, scope.hotkey, c) && AttemptsAreLatest(q)
    requires forall b :: b in q.history ==> q.history[b].round == scope.round
    requires forall b :: b in u.history ==> u.history[b].round == scope.round
    requires var h := scope.hotkey;
             h in q.attempts ==> var latest := Connection(h, q.attempts[h].startId);
                                 latest in q.history && q.history[latest].submitted
    requires IsBest(Withdrawn(u, c), scope, best)
    ensures best.Some? <==> scope.hotkey in q.attempts
    ensures best.Some? ==> best.value in Withdrawn(u, c) && Withdrawn(u, c)[best.value] == q.attempts[scope.hotkey]
  {
    var h, history := scope.hotkey, Withdrawn(u, c);
    assert forall b: Connection :: IsAuthorised(history, scope, b) <==> (b.hotkey == h && b in q.history && q.history[b].submitted);
    if h in q.attempts {
      assert IsAuthorised(history, scope, Connection(h, q.attempts[h].startId));
    }
  }

  lemma AttemptIsSubmitted(q: QueueState, round: nat, h: Hotkey)
    requires WellFormed(q, round) && h in q.attempts
    ensures Connection(h, q.attempts[h].startId) in q.history && q.history[Connection(h, q.attempts[h].startId)].submitted
  {
    assert AttemptOk(q, h);
  }

  /** However many calls come between, as long as the entry stays authorised: its release puts the attempt on file and
    * every other record of the hotkey back as they were before its authorisation.
    */
  lemma ReleaseRestores(l: Limits, s: State, authorize: Call, calls: seq<Call>, release: Call)
    requires l.interval > 0.0 && Sound(l, s)
    requires authorize.change.Authorize? && Changes(l, s, authorize)
    requires var scope, startId, t := authorize.change.scope, authorize.change.startId, Next(l, s, authorize);
             && AllAllowed(l, t, calls) && StaysAuthorised(l, t, calls, s.round, scope.hotkey, startId)
             && release.change.Release? && release.change.scope == scope && release.change.startId == startId
             && release.lands && Allowed(After(l, t, calls), release)
    ensures var scope, startId := authorize.change.scope, authorize.change.startId;
            var h, r := scope.hotkey, Next(l, After(l, Next(l, s, authorize), calls), release).queue;
            && h in s.queue.pending && h in r.pending && r.pending[h] == s.queue.pending[h]
            && (h in r.attempts <==> h in s.queue.attempts) && (h in s.queue.attempts ==> r.attempts[h] == s.queue.attempts[h])
            && SameOthers(s.queue, r, h, Connection(h, startId)) && !Submitted(r, scope, startId)
  {
    var scope, startId, t := authorize.change.scope, authorize.change.startId, Next(l, s, authorize);
    var u, own := After(l, t, calls), Connection(authorize.change.scope.hotkey, authorize.change.startId);
    AuthorisedState(l, s, authorize);
    hide WellFormed, Loaded, SameOthers, ReleaseChange, AuthorizeChange, After, ReleaseChoice, IsPending;
    CallsKeepOthers(l, t, calls, scope.hotkey, startId);
    SameOthersTransitively(s.queue, t.queue, u.queue, scope.hotkey, own);
    LoadedIsIdentity(u.queue, s.round);
    ReleasedAttempt(s, u, scope, startId, release.change.best);
  }

  /** What an authorisation that lands leaves: the entry authorised, and the hotkey's other records as they were. */
  lemma AuthorisedState(l: Limits, s: State, authorize: Call)
    requires l.interval > 0.0 && Sound(l, s)
    requires authorize.change.Authorize? && Changes(l, s, authorize)
    ensures var scope, startId, t := authorize.change.scope, authorize.change.startId, Next(l, s, authorize);
            && Sound(l, t) && t.round == s.round == scope.round
            && IsPending(s.queue, scope, startId) && !s.queue.pending[scope.hotkey].submitted
            && IsPending(t.queue, scope, startId) && StillAuthorised(t, s.round, scope.hotkey, startId)
            && t.queue.pending[scope.hotkey] == s.queue.pending[scope.hotkey].(submitted := true)
            && SameOthers(s.queue, t.queue, scope.hotkey, Connection(scope.hotkey, startId))
  {
    var scope, startId := authorize.change.scope, authorize.change.startId;
    LoadedIsIdentity(s.queue, s.round);
    if scope.round != s.round { OtherRoundsDoNothing(l, s, authorize); }
    CallKeepsQueue(l, s, authorize);
    AuthorizeChangesOwn(s.queue, scope, startId, l.interval, authorize.now);
    hide WellFormed, Loaded, SameOthers, AuthorizeChange;
  }

  lemma AuthorizeChangesOwn(q: QueueState, scope: Scope, startId: StartId, interval: real, now: real)
    requires AuthorizeChange(q, scope, startId, interval, now).Success?
    ensures var r := AuthorizeChange(q, scope, startId, interval, now).value;
            && IsPending(q, scope, startId) && !q.pending[scope.hotkey].submitted
            && r.pending[scope.hotkey] == q.pending[scope.hotkey].(submitted := true)
            && SameOthers(q, r, scope.hotkey, Connection(scope.hotkey, startId))
  {
  }

  // ---------------------------------------------------------------- uncertain creates stay counted

  /** An authorised create stays unresolved through every call but its own completion, its own release, and a rollover. */
  lemma AuthorisedStaysUnresolved(l: Limits, s: State, call: Call, hotkey: Hotkey, time: real)
    requires l.interval > 0.0 && Sound(l, s) && Allowed(s, call)
    requires hotkey in s.queue.pending && s.queue.pending[hotkey].submitted
    requires var own, startId := Scope(s.round, hotkey), s.queue.pending[hotkey].startId;
             && (call.change.Complete? || call.change.Release? ==> call.change.scope != own || call.change.startId != startId)
             && (call.change.Rollover? ==> call.change.round == s.round)
    ensures Create(Scope(s.round, hotkey), s.queue.pending[hotkey].startId) in Unresolved(Next(l, s, call).queue, time)
  {
    EntryStays(l, s, call, hotkey);
    SingleRound(s.queue, s.round);
    hide Sound, Allowed, Next;
    assert s.queue.pending[hotkey].round == s.round;
  }

  lemma EntryStays(l: Limits, s: State, call: Call, hotkey: Hotkey)
    requires l.interval > 0.0 && Sound(l, s) && Allowed(s, call)
    requires hotkey in s.queue.pending && s.queue.pending[hotkey].submitted
    requires var own, startId := Scope(s.round, hotkey), s.queue.pending[hotkey].startId;
             && (call.change.Complete? || call.change.Release? ==> call.change.scope != own || call.change.startId != startId)
             && (call.change.Rollover? ==> call.change.round == s.round)
    ensures hotkey in Next(l, s, call).queue.pending && Next(l, s, call).queue.pending[hotkey] == s.queue.pending[hotkey]
  {
    var q := s.queue;
    LoadedIsIdentity(q, s.round);
    SingleRound(q, s.round);
    if call.change.Rollover? { RolloverSucceeds(q, s.round, s.round, call.now); }
    hide WellFormed, Loaded, RolloverChange, EnqueueChange, AuthorizeChange, ReleaseChange, CompleteChange, CancelChange;
    var own := Connection(hotkey, q.pending[hotkey].startId);
    if Changes(l, s, call) {
      match call.change
      case Enqueue(scope, start, predecessor) => EnqueueKeepsOthers(q, scope, start, predecessor, l.capacity, call.now, hotkey, own);
      case Authorize(scope, start) => AuthorizeKeepsOthers(q, scope, start, l.interval, call.now, hotkey, own);
      case Release(scope, start, best) => OtherEntryStays(q, scope, start, best, false, hotkey);
      case Complete(scope, start, rejected) => OtherEntryStays(q, scope, start, None, rejected, hotkey);
      case Cancel(scope, start) => CancelKeepsOthers(q, scope, start, hotkey, own);
      case Rollover(round) =>
    }
  }

  lemma OtherEntryStays(q: QueueState, scope: Scope, startId: StartId, best: Option<Connection>, rejected: bool,
                        hotkey: Hotkey)
    requires hotkey in q.pending && (scope.hotkey == hotkey ==> !IsPending(q, scope, startId))
    ensures var r := ReleaseChange(q, scope, startId, best);
            r.Success? ==> hotkey in r.value.pending && r.value.pending[hotkey] == q.pending[hotkey]
    ensures var r := CompleteChange(q, scope, startId, rejected);
            hotkey in r.pending && r.pending[hotkey] == q.pending[hotkey]
  {
  }
}
