/** What the calls of the start queue do, as those see it who ask about entries, connections and unresolved creates. */
module QueueEffects {
  import opened Wrappers
  import opened AdmissionQueue
  import Runs = QueueRuns

  predicate SameAt<K, V(==)>(m: map<K, V>, n: map<K, V>, k: K) {
    (k in m <==> k in n) && (k in m ==> m[k] == n[k])
  }

  /** Entries, attempts and records of all other hotkeys are as they were, and so is what is retained. */
  ghost predicate OthersStay(q: QueueState, r: QueueState, hotkey: Hotkey) {
    && (forall g :: g != hotkey ==> SameAt(q.pending, r.pending, g) && SameAt(q.attempts, r.attempts, g))
    && (forall c: Connection :: c.hotkey != hotkey ==> SameAt(q.history, r.history, c))
    && r.retained == q.retained
  }

  /** The hotkey's records, but for one, are as they were. */
  ghost predicate OtherRecordsStay(q: QueueState, r: QueueState, own: Connection) {
    forall c :: c != own ==> SameAt(q.history, r.history, c)
  }

  // ---------------------------------------------------------------- reading

  /** What counts as unresolved: an authorised entry, or a create of an earlier round less than 600 seconds old. */
  lemma UnresolvedMeans(q: QueueState, now: real, c: Create)
    ensures c in Unresolved(q, now)
            <==> || (IsPending(q, c.scope, c.startId) && q.pending[c.scope.hotkey].submitted)
                 || (exists a :: a in q.retained && a.hotkey == c.scope.hotkey && a.startId == c.startId
                                 && q.retained[a].round == c.scope.round && now < q.retained[a].at as real + 600.0)
  {
    if IsPending(q, c.scope, c.startId) && q.pending[c.scope.hotkey].submitted {
      assert c == Create(Scope(q.pending[c.scope.hotkey].round, c.scope.hotkey), q.pending[c.scope.hotkey].startId);
    }
    if a :| a in q.retained && a.hotkey == c.scope.hotkey && a.startId == c.startId
            && q.retained[a].round == c.scope.round && now < q.retained[a].at as real + 600.0
    {
      assert c == Create(Scope(q.retained[a].round, a.hotkey), a.startId);
    }
  }

  /** A connection has an attempt exactly when it has been recorded this round. Its attempt is the record of the start it
    * leads to, and asking for that start gives the same.
    */
  lemma AttemptMeans(q: QueueState, scope: Scope, startId: StartId)
    requires WellFormed(q, scope.round)
    ensures Attempt(q, scope, startId).Some? <==> Recorded(q, scope, startId)
    ensures Attempt(q, scope, startId).Some? ==>
              var a := Attempt(q, scope, startId).value;
              && a.round == scope.round && a.startId == q.history[Connection(scope.hotkey, startId)].startId
              && Connection(scope.hotkey, a.startId) in q.history && q.history[Connection(scope.hotkey, a.startId)] == a
              && Attempt(q, scope, a.startId) == Some(a)
  {
    EntryAndRecord(q, scope.round, scope.hotkey, Connection(scope.hotkey, startId));
    if Recorded(q, scope, startId) {
      var lead := q.history[Connection(scope.hotkey, startId)].startId;
      EntryAndRecord(q, scope.round, scope.hotkey, Connection(scope.hotkey, lead));
    }
  }

  // ---------------------------------------------------------------- enqueueing

  /** A start is accepted if and only if its hotkey is queued already, or there is room and it is not a used one. */
  lemma EnqueueAccepts(q: QueueState, scope: Scope, startId: StartId, predecessor: Option<StartId>, capacity: nat, now: real)
    requires WellFormed(q, scope.round)
    ensures var change, queued := EnqueueChange(q, scope, startId, predecessor, capacity, now), scope.hotkey in q.pending;
            && (change.Success? <==> queued || (|q.pending| < capacity && !Recorded(q, scope, startId)))
            && (change == Failure(CapacityReached) <==> !queued && |q.pending| >= capacity)
            && (change == Failure(StateConflict) <==> !queued && |q.pending| < capacity && Recorded(q, scope, startId))
  {
    EntryAndRecord(q, scope.round, scope.hotkey, Connection(scope.hotkey, startId));
  }

  /** A hotkey that still has an entry of another round has to wait a minute. */
  lemma OtherRoundIsDeferred(q: QueueState, scope: Scope, startId: StartId, predecessor: Option<StartId>, capacity: nat,
                             now: real)
    requires scope.hotkey in q.pending && q.pending[scope.hotkey].round != scope.round
    ensures EnqueueChange(q, scope, startId, predecessor, capacity, now) == Failure(CreateDeferred(now + 60.0))
  {
  }

  /** Afterwards the connection is recorded, as joining the entry of its hotkey or as a new one behind all others; nothing
    * else changes, and no more creates are unresolved than before. Asking again changes nothing.
    */
  lemma EnqueueDoes(q: QueueState, scope: Scope, startId: StartId, predecessor: Option<StartId>, capacity: nat, now: real)
    requires WellFormed(q, scope.round)
    requires EnqueueChange(q, scope, startId, predecessor, capacity, now).Success?
    ensures var (r, entry) := EnqueueChange(q, scope, startId, predecessor, capacity, now).value;
            && OthersStay(q, r, scope.hotkey) && OtherRecordsStay(q, r, Connection(scope.hotkey, startId))
            && r.attempts == q.attempts && r.lastCreateAt == q.lastCreateAt
            && Recorded(r, scope, startId) && (Recorded(q, scope, startId) ==> r == q)
            && (!Recorded(q, scope, startId) ==>
                  r.history[Connection(scope.hotkey, startId)] == CreateAttempt(scope.round, entry.startId, Ceil(now), false, false))
            && (if scope.hotkey in q.pending then r.pending == q.pending && entry == q.pending[scope.hotkey]
                else r.pending == q.pending[scope.hotkey := entry]
                     && entry.round == scope.round && entry.startId == startId && entry.predecessor == predecessor
                     && !entry.submitted)
    ensures forall t :: Unresolved(EnqueueChange(q, scope, startId, predecessor, capacity, now).value.0, t) == Unresolved(q, t)
  {
    EntryAndRecord(q, scope.round, scope.hotkey, Connection(scope.hotkey, startId));
    var r := EnqueueChange(q, scope, startId, predecessor, capacity, now).value.0;
    forall t ensures Unresolved(r, t) == Unresolved(q, t) {
      forall c ensures c in Unresolved(r, t) <==> c in Unresolved(q, t) {
        UnresolvedMeans(q, t, c);
        UnresolvedMeans(r, t, c);
      }
    }
  }

  // ---------------------------------------------------------------- authorising

  /** A queued entry is authorised if and only if it was not before and the last authorisation is an interval ago. */
  lemma AuthorizeAccepts(q: QueueState, scope: Scope, startId: StartId, interval: real, now: real)
    requires WellFormed(q, scope.round) && interval >= 0.0 && now >= 0.0
    ensures AuthorizeChange(q, scope, startId, interval, now).Success?
            <==> && IsPending(q, scope, startId) && !q.pending[scope.hotkey].submitted
                 && (interval == 0.0 || q.lastCreateAt.None? || now - q.lastCreateAt.value as real >= interval)
    ensures AuthorizeChange(q, scope, startId, interval, now).Failure? ==>
              AuthorizeChange(q, scope, startId, interval, now).error.CreateDeferred?
    ensures !IsPending(q, scope, startId) || q.pending[scope.hotkey].submitted ==>
              AuthorizeChange(q, scope, startId, interval, now) == Failure(CreateDeferred(now + 60.0))
  {
    EntryAndRecord(q, scope.round, scope.hotkey, Connection(scope.hotkey, startId));
  }

  /** An entry that has to wait is told when to come back: not any earlier, and from then on it is authorised. */
  lemma DeferredUntil(q: QueueState, scope: Scope, startId: StartId, interval: real, now: real, later: real)
    requires WellFormed(q, scope.round) && interval >= 0.0 && 0.0 <= now <= later
    requires IsPending(q, scope, startId) && !q.pending[scope.hotkey].submitted
    requires AuthorizeChange(q, scope, startId, interval, now).Failure?
    ensures AuthorizeChange(q, scope, startId, interval, now).error.CreateDeferred?
    ensures AuthorizeChange(q, scope, startId, interval, later).Success?
            <==> later >= AuthorizeChange(q, scope, startId, interval, now).error.retryAt
  {
    AuthorizeAccepts(q, scope, startId, interval, now);
    AuthorizeAccepts(q, scope, startId, interval, later);
  }

  /** Afterwards this create is unresolved and no other has become so, the clock of authorisations stands at this second,
    * and all connections that lead to this start have the new attempt.
    */
  lemma AuthorizeDoes(q: QueueState, scope: Scope, startId: StartId, interval: real, now: real)
    requires WellFormed(q, scope.round) && AuthorizeChange(q, scope, startId, interval, now).Success?
    ensures var r, c := AuthorizeChange(q, scope, startId, interval, now).value, Connection(scope.hotkey, startId);
            && OthersStay(q, r, scope.hotkey) && OtherRecordsStay(q, r, c) && r.lastCreateAt == Some(Ceil(now))
            && r.pending == q.pending[scope.hotkey := q.pending[scope.hotkey].(submitted := true)]
            && Submitted(r, scope, startId)
            && scope.hotkey in r.attempts && Attempt(r, scope, startId) == Some(r.attempts[scope.hotkey])
            && r.attempts[scope.hotkey] == CreateAttempt(scope.round, startId, Ceil(now), false, true)
            && (forall s :: Recorded(q, scope, s) && q.history[Connection(scope.hotkey, s)].startId == startId ==>
                              Attempt(r, scope, s) == Attempt(r, scope, startId))
    ensures forall t :: Unresolved(AuthorizeChange(q, scope, startId, interval, now).value, t)
                        == Unresolved(q, t) + {Create(scope, startId)}
  {
    var r := AuthorizeChange(q, scope, startId, interval, now).value;
    EntryAndRecord(q, scope.round, scope.hotkey, Connection(scope.hotkey, startId));
    forall t ensures Unresolved(r, t) == Unresolved(q, t) + {Create(scope, startId)} {
      forall c ensures c in Unresolved(r, t) <==> c in Unresolved(q, t) || c == Create(scope, startId) {
        UnresolvedMeans(q, t, c);
        UnresolvedMeans(r, t, c);
      }
    }
  }

  /** A release takes back the authorisation of this entry and touches nothing of other hotkeys. */
  lemma ReleaseDoes(q: QueueState, scope: Scope, startId: StartId, best: Option<Connection>)
    requires WellFormed(q, scope.round) && ReleaseChoice(q, scope, startId, best)
    ensures ReleaseChange(q, scope, startId, best).Success?
    ensures var r, c := ReleaseChange(q, scope, startId, best).value, Connection(scope.hotkey, startId);
            && OthersStay(q, r, scope.hotkey) && OtherRecordsStay(q, r, c) && r.lastCreateAt == q.lastCreateAt
            && if IsPending(q, scope, startId) && q.pending[scope.hotkey].submitted then
                 && r.pending == q.pending[scope.hotkey := q.pending[scope.hotkey].(submitted := false)]
                 && !Submitted(r, scope, startId)
               else r == q
  {
    ReleaseKeepsQueue(q, scope, startId, best);
    hide WellFormed;
  }

  // ---------------------------------------------------------------- leaving the queue

  /** A completion takes the entry out of the queue and leaves every other one. A rejection marks the attempt on file of
    * this start, and what its connections are told, as rejected.
    */
  lemma CompleteDoes(q: QueueState, scope: Scope, startId: StartId, rejected: bool)
    requires WellFormed(q, scope.round)
    ensures var r, c := CompleteChange(q, scope, startId, rejected), Connection(scope.hotkey, startId);
            && !IsPending(r, scope, startId) && OthersStay(q, r, scope.hotkey) && OtherRecordsStay(q, r, c)
            && r.lastCreateAt == q.lastCreateAt && r.sequence == q.sequence
            && (!IsPending(q, scope, startId) ==> r.pending == q.pending)
            && if rejected && scope.hotkey in q.attempts && q.attempts[scope.hotkey].startId == startId then
                 && r.attempts == q.attempts[scope.hotkey := q.attempts[scope.hotkey].(rejected := true)]
                 && Attempt(r, scope, startId) == Some(r.attempts[scope.hotkey])
                 && Submitted(r, scope, startId)
               else r.attempts == q.attempts && r.history == q.history
  {
    SingleRound(q, scope.round);
    EntryAndRecord(q, scope.round, scope.hotkey, Connection(scope.hotkey, startId));
    if scope.hotkey in q.attempts { assert AttemptOk(q, scope.hotkey); }
    hide WellFormed;
  }

  /** A cancellation answers whether the hotkey has an entry no longer. It removes this entry alone, and only while it is not
    * authorised.
    */
  lemma CancelDoes(q: QueueState, scope: Scope, startId: StartId)
    ensures var (r, gone) := CancelChange(q, scope, startId);
            && (gone <==> scope.hotkey !in r.pending)
            && (gone <==> (scope.hotkey in q.pending ==> IsPending(q, scope, startId) && !q.pending[scope.hotkey].submitted))
            && r == q.(pending := r.pending) && OthersStay(q, r, scope.hotkey)
            && (!gone ==> r == q)
  {
  }

  /** A completed create is not unresolved any more, and every other one is as it was. */
  lemma CompletionResolves(q: QueueState, scope: Scope, startId: StartId, rejected: bool, now: real)
    requires forall c :: c in q.retained ==> q.retained[c].round != scope.round
    ensures Unresolved(CompleteChange(q, scope, startId, rejected), now) == Unresolved(q, now) - {Create(scope, startId)}
  {
    var r := CompleteChange(q, scope, startId, rejected);
    forall c ensures c in Unresolved(r, now) <==> c in Unresolved(q, now) && c != Create(scope, startId) {
      UnresolvedMeans(q, now, c);
      UnresolvedMeans(r, now, c);
    }
  }

  /** A cancellation leaves the unresolved creates alone. */
  lemma CancellationResolvesNothing(q: QueueState, scope: Scope, startId: StartId, now: real)
    ensures Unresolved(CancelChange(q, scope, startId).0, now) == Unresolved(q, now)
  {
    var r := CancelChange(q, scope, startId).0;
    forall c ensures c in Unresolved(r, now) <==> c in Unresolved(q, now) {
      UnresolvedMeans(q, now, c);
      UnresolvedMeans(r, now, c);
    }
  }

  /** A rollover makes nothing unresolved that was not. */
  lemma RolloverAddsNothing(q: QueueState, previous: nat, round: nat, now: real, time: real)
    requires WellFormed(q, previous) && now <= time
    ensures RolloverChange(q, round, now).Success?
    ensures Unresolved(RolloverChange(q, round, now).value, time) <= Unresolved(q, time)
  {
    RolloverSucceeds(q, previous, round, now);
    SingleRound(q, previous);
    var r := RolloverChange(q, round, now).value;
    assert r.retained == Retained(q, round, now);
    hide WellFormed, RolloverChange;
    forall c | c in Unresolved(r, time) ensures c in Unresolved(q, time) {
      UnresolvedMeans(q, time, c);
      UnresolvedMeans(r, time, c);
    }
  }

  /** One to the open round changes nothing that is asked. */
  lemma RolloverToOpenRound(q: QueueState, round: nat, now: real, time: real)
    requires WellFormed(q, round) && now <= time
    ensures RolloverChange(q, round, now).Success?
    ensures var r := RolloverChange(q, round, now).value;
            r == q.(retained := r.retained) && Unresolved(r, time) == Unresolved(q, time)
  {
    RolloverSucceeds(q, round, round, now);
    RetainedByOpenRound(q, round, now);
    hide WellFormed, RolloverChange, Retained;
    var r := RolloverChange(q, round, now).value;
    forall c ensures c in Unresolved(r, time) <==> c in Unresolved(q, time) {
      UnresolvedMeans(q, time, c);
      UnresolvedMeans(r, time, c);
    }
  }

  lemma RetainedByOpenRound(q: QueueState, round: nat, now: real)
    requires WellFormed(q, round) && RolloverChange(q, round, now).Success?
    ensures var retained := RolloverChange(q, round, now).value.retained;
            && (forall c :: c in retained <==> c in q.retained && now - q.retained[c].at as real < DISCOVERY_GRACE)
            && (forall c :: c in retained ==> retained[c] == q.retained[c])
  {
    SingleRound(q, round);
    assert LeftBehind(q, round) == map[];
    hide WellFormed;
  }

  // ---------------------------------------------------------------- what a connection can rely on

  /** Every record is still there and leads to the same start. */
  ghost predicate RecordsKept(q: QueueState, r: QueueState) {
    forall c :: c in q.history ==> c in r.history && r.history[c].startId == q.history[c].startId
  }

  lemma CallKeepsRecords(l: Runs.Limits, s: Runs.State, call: Runs.Call)
    requires l.interval > 0.0 && Runs.Sound(l, s) && Runs.Allowed(s, call)
    requires call.change.Rollover? ==> call.change.round == s.round
    ensures Runs.Next(l, s, call).round == s.round && RecordsKept(s.queue, Runs.Next(l, s, call).queue)
  {
    hide WellFormed, Loaded, EnqueueChange, AuthorizeChange, ReleaseChange, CompleteChange, RolloverChange;
    LoadedIsIdentity(s.queue, s.round);
    var q := s.queue;
    if Runs.Changes(l, s, call) {
      if !call.change.Enqueue? && !call.change.Rollover? && call.change.scope.round != s.round {
        Runs.OtherRoundsDoNothing(l, s, call);
      } else {
        match call.change
        case Enqueue(scope, startId, predecessor) => EnqueueKeepsRecords(q, scope, startId, predecessor, l.capacity, call.now);
        case Authorize(scope, startId) => AuthorizeKeepsRecords(q, scope, startId, l.interval, call.now);
        case Release(scope, startId, best) => ReleaseKeepsRecords(q, scope, startId, best);
        case Complete(scope, startId, rejected) => CompleteKeepsRecords(q, scope, startId, rejected);
        case Cancel(scope, startId) => CancelDoes(q, scope, startId);
        case Rollover(round) => RolloverSucceeds(q, s.round, round, call.now);
      }
    }
  }

  lemma EnqueueKeepsRecords(q: QueueState, scope: Scope, startId: StartId, predecessor: Option<StartId>, capacity: nat,
                            now: real)
    requires WellFormed(q, scope.round)
    requires EnqueueChange(q, scope, startId, predecessor, capacity, now).Success?
    ensures RecordsKept(q, EnqueueChange(q, scope, startId, predecessor, capacity, now).value.0)
  {
    SingleRound(q, scope.round);
    hide WellFormed;
  }

  lemma AuthorizeKeepsRecords(q: QueueState, scope: Scope, startId: StartId, interval: real, now: real)
    requires WellFormed(q, scope.round) && AuthorizeChange(q, scope, startId, interval, now).Success?
    ensures RecordsKept(q, AuthorizeChange(q, scope, startId, interval, now).value)
  {
    EntryAndRecord(q, scope.round, scope.hotkey, Connection(scope.hotkey, startId));
    hide WellFormed;
  }

  lemma ReleaseKeepsRecords(q: QueueState, scope: Scope, startId: StartId, best: Option<Connection>)
    requires ReleaseChange(q, scope, startId, best).Success?
    ensures RecordsKept(q, ReleaseChange(q, scope, startId, best).value)
  {
  }

  lemma CompleteKeepsRecords(q: QueueState, scope: Scope, startId: StartId, rejected: bool)
    requires WellFormed(q, scope.round)
    ensures RecordsKept(q, CompleteChange(q, scope, startId, rejected))
  {
    if scope.hotkey in q.attempts { assert AttemptOk(q, scope.hotkey); }
    hide WellFormed;
  }

  ghost predicate StaysOpen(calls: seq<Runs.Call>, round: nat) {
    forall i :: 0 <= i < |calls| && calls[i].change.Rollover? ==> calls[i].change.round == round
  }

  /** Once accepted, a connection can be asked about until the round is over, whatever calls are made: it keeps leading to
    * the same start.
    */
  lemma {:induction false} ConnectionStaysKnown(l: Runs.Limits, s: Runs.State, calls: seq<Runs.Call>, hotkey: Hotkey,
                                                startId: StartId)
    requires l.interval > 0.0 && Runs.Sound(l, s) && Runs.AllAllowed(l, s, calls) && StaysOpen(calls, s.round)
    requires Attempt(s.queue, Scope(s.round, hotkey), startId).Some?
    ensures var after, scope := Runs.After(l, s, calls), Scope(s.round, hotkey);
            && after.round == s.round && Runs.Sound(l, after) && Attempt(after.queue, scope, startId).Some?
            && Attempt(after.queue, scope, startId).value.startId == Attempt(s.queue, scope, startId).value.startId
  {
    hide Runs.Next, Runs.Allowed, Runs.AllAllowed, Attempt;
    if calls != [] {
      var fewer, last := calls[..|calls| - 1], calls[|calls| - 1];
      Runs.AllowedBefore(l, s, calls);
      ConnectionStaysKnown(l, s, fewer, hotkey, startId);
      var u := Runs.After(l, s, fewer);
      CallKeepsRecords(l, u, last);
      Runs.CallKeepsQueue(l, u, last);
      AttemptStays(u.queue, Runs.Next(l, u, last).queue, Scope(s.round, hotkey), startId);
    }
  }

  lemma AttemptStays(q: QueueState, r: QueueState, scope: Scope, startId: StartId)
    requires WellFormed(q, scope.round) && WellFormed(r, scope.round) && RecordsKept(q, r)
    requires Attempt(q, scope, startId).Some?
    ensures Attempt(r, scope, startId).Some?
    ensures Attempt(r, scope, startId).value.startId == Attempt(q, scope, startId).value.startId
  {
    AttemptMeans(q, scope, startId);
    AttemptMeans(r, scope, startId);
    SingleRound(r, scope.round);
    hide WellFormed, Attempt;
  }
}
