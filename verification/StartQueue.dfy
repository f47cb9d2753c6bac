/** The start queue over its durable store: every operation loads the journal, applies one change to it and saves
  * the result under the version it loaded. A read may fail. A save may be refused, may land although it reported
  * failure, or may land later, at any time before the next one does.
  */
module StartQueues {
  import opened Wrappers
  import opened AdmissionQueue

  /** A write that was sent and may still take effect. */
  datatype Write = Write(data: QueueState, expected: nat)

  /** One object guarded by its version. */
  class StateStore {
    var body: Option<QueueState>
    var version: nat
    var flying: set<Write>

    constructor ()
      ensures body == None && flying == {}
    {
      body, version, flying := None, 0, {};
    }

    method Load() returns (r: Result<(Option<QueueState>, nat), QueueError>)
      ensures r == Success((body, version)) || r == Failure(ReadFailed)
    {
      var answered: bool := *;
      r := if answered then Success((body, version)) else Failure(ReadFailed);
    }

    /** A save under a stale version changes nothing; an uncertain one has landed, or may land later, or never does. */
    method Save(data: QueueState, expected: nat) returns (r: Result<(), QueueError>)
      modifies this
      ensures r.Success? ==>
                expected == old(version) && body == Some(data) && version == old(version) + 1 && flying == old(flying)
      ensures r.Failure? ==> r.error in {StateConflict, WriteRejected, WriteUncertain}
      ensures r.Failure? && r.error != WriteUncertain ==> unchanged(this)
      ensures r == Failure(WriteUncertain) ==>
                || (expected == old(version) && body == Some(data) && version == old(version) + 1 && flying == old(flying))
                || (body == old(body) && version == old(version)
                    && old(flying) <= flying <= old(flying) + {Write(data, expected)})
    {
      var applied, answered, pending: bool := *, *, *;
      if answered && expected != version {
        return Failure(StateConflict);
      }
      if applied && expected == version {
        body, version := Some(data), version + 1;
        return if answered then Success(()) else Failure(WriteUncertain);
      }
      if answered {
        return Failure(WriteRejected);
      }
      if pending {
        flying := flying + {Write(data, expected)};
      }
      return Failure(WriteUncertain);
    }

    /** A write arrives after its reply: it takes effect unless the object has changed since it was sent. */
    method Arrive(w: Write)
      requires w in flying
      modifies this
      ensures flying == old(flying) - {w}
      ensures if w.expected == old(version) then body == Some(w.data) && version == old(version) + 1
              else body == old(body) && version == old(version)
    {
      flying := flying - {w};
      if w.expected == version {
        body, version := Some(w.data), version + 1;
      }
    }
  }

  class StartQueue {
    const store: StateStore
    const interval: real
    const capacity: nat
    /** The journal as of the last confirmed change or reload; readers see this value. */
    var cached: QueueState

    constructor (store: StateStore, interval: real, capacity: nat)
      requires 0.0 <= interval && 1 <= capacity <= 4096
      ensures this.store == store && this.interval == interval && this.capacity == capacity
      ensures cached == EMPTY_QUEUE
    {
      this.store, this.interval, this.capacity := store, interval, capacity;
      cached := EMPTY_QUEUE;
    }

    function Journal(): QueueState
      reads store
    {
      if store.body.None? then EMPTY_QUEUE else store.body.value
    }

    /** The change was confirmed: journal and cache hold its result. */
    ghost predicate Confirmed(next: QueueState)
      reads this, store
    {
      store.body == Some(next) && cached == next
    }

    twostate predicate Untouched()
      reads this, store
    {
      cached == old(cached) && unchanged(store)
    }

    /** The call raised: the cache is as before, and so is the journal unless an unconfirmed write landed; such a write
      * may also be on its way.
      */
    twostate predicate Raised(error: QueueError, write: Write)
      reads this, store
    {
      && cached == old(cached)
      && (error != WriteUncertain ==> Untouched())
      && (store.body == old(store.body) || store.body == Some(write.data))
      && old(store.flying) <= store.flying <= old(store.flying) + {write}
    }

    /** The journal with every attempt filed under history, and its version; or the read raises. */
    method LoadState() returns (r: Result<(QueueState, nat), QueueError>)
      ensures r == Success((Loaded(Journal()), store.version)) || r == Failure(ReadFailed)
    {
      var snapshot :- store.Load();
      var saved := if snapshot.0.None? then EMPTY_QUEUE else snapshot.0.value;
      var history, rest := saved.history, saved.attempts.Keys;
      ghost var filed: set<Connection> := {};
      while rest != {}
        invariant rest <= saved.attempts.Keys
        invariant filed == set h | h in saved.attempts && h !in rest :: Connection(h, saved.attempts[h].startId)
        invariant history == (map c | c in filed :: saved.attempts[c.hotkey]) + saved.history
        decreases rest
      {
        var h :| h in rest;
        var c := Connection(h, saved.attempts[h].startId);
        if c !in history {
          history := history[c := saved.attempts[h]];
        }
        filed := filed + {c};
        rest := rest - {h};
      }
      r := Success((saved.(history := history), snapshot.1));
      assert filed == set h | h in saved.attempts :: Connection(h, saved.attempts[h].startId);
    }

    method Load() returns (r: Result<(), QueueError>)
      modifies this
      ensures r.Success? ==> cached == Loaded(Journal())
      ensures r.Failure? ==> r.error == ReadFailed && cached == old(cached)
    {
      var loaded :- LoadState();
      cached := loaded.0;
      r := Success(());
    }

    /** A journal that has outgrown its object is refused; how large it is when encoded is not part of this model. */
    method Commit(state: QueueState, etag: nat) returns (r: Result<(), QueueError>)
      modifies this, store
      ensures r.Success? ==> Confirmed(state) && etag == old(store.version) && store.version == etag + 1
      ensures r.Failure? ==> r.error != ReadFailed && Raised(r.error, Write(state, etag))
    {
      var tooLarge: bool := *;
      if tooLarge {
        return Failure(CapacityReached);
      }
      r := store.Save(state, etag);
      if r.Success? {
        cached := state;
      }
    }

    /** Repeated requests are answered from the cache; only a new connection writes. */
    method Enqueue(scope: Scope, startId: StartId, predecessor: Option<StartId>, now: real)
      returns (r: Result<PendingStart, QueueError>)
      modifies this, store
      ensures var known := scope.hotkey in old(cached).pending
                           && old(cached).pending[scope.hotkey].round == scope.round
                           && (old(cached).pending[scope.hotkey].startId == startId
                               || Attempt(old(cached), scope, startId).Some?);
              var change := EnqueueChange(Loaded(old(Journal())), scope, startId, predecessor, capacity, now);
              if known then
                r == Success(old(cached).pending[scope.hotkey]) && Untouched()
              else if r == Failure(ReadFailed) then Untouched()
              else if change.Failure? then r == Failure(change.error) && Untouched()
              else if r.Success? then r.value == change.value.1 && Confirmed(change.value.0)
              else Raised(r.error, Write(change.value.0, old(store.version)))
    {
      if scope.hotkey in cached.pending && cached.pending[scope.hotkey].round == scope.round
         && (cached.pending[scope.hotkey].startId == startId || Attempt(cached, scope, startId).Some?)
      {
        return Success(cached.pending[scope.hotkey]);
      }
      var loaded :- LoadState();
      var (state, etag) := loaded;
      var change :- EnqueueChange(state, scope, startId, predecessor, capacity, now);
      var _ :- Commit(change.0, etag);
      r := Success(change.1);
    }

    method Authorize(scope: Scope, startId: StartId, now: real) returns (r: Result<(), QueueError>)
      modifies this, store
      ensures var change := AuthorizeChange(Loaded(old(Journal())), scope, startId, interval, now);
              if r == Failure(ReadFailed) then Untouched()
              else if change.Failure? then r == Failure(change.error) && Untouched()
              else if r.Success? then Confirmed(change.value)
              else Raised(r.error, Write(change.value, old(store.version)))
    {
      var loaded :- LoadState();
      var (state, etag) := loaded;
      var next :- AuthorizeChange(state, scope, startId, interval, now);
      r := Commit(next, etag);
    }

    /** The authorised record of the scope with the greatest time. */
    static method BestAttempt(history: map<Connection, CreateAttempt>, scope: Scope)
      returns (best: Option<Connection>)
      ensures IsBest(history, scope, best)
    {
      best := None;
      var rest := history.Keys;
      while rest != {}
        invariant rest <= history.Keys
        invariant best.None? ==> forall c :: c in history && c !in rest ==> !IsAuthorised(history, scope, c)
        invariant best.Some? ==> IsAuthorised(history, scope, best.value)
        invariant best.Some? ==> forall c :: IsAuthorised(history, scope, c) && c !in rest
                                   ==> history[c].at <= history[best.value].at
        decreases rest
      {
        var c :| c in rest;
        if IsAuthorised(history, scope, c) && (best.None? || history[best.value].at < history[c].at) {
          best := Some(c);
        }
        rest := rest - {c};
      }
    }

    method ReleaseAuthorization(scope: Scope, startId: StartId)
      returns (r: Result<(), QueueError>, ghost best: Option<Connection>)
      modifies this, store
      ensures r == Failure(ReadFailed) || ReleaseChoice(Loaded(old(Journal())), scope, startId, best)
      ensures var change := ReleaseChange(Loaded(old(Journal())), scope, startId, best);
              if r == Failure(ReadFailed) then Untouched()
              else if change.Failure? then r == Failure(change.error) && Untouched()
              else if r.Success? then Confirmed(change.value)
              else Raised(r.error, Write(change.value, old(store.version)))
    {
      best := None;
      var loaded :- LoadState();
      var (state, etag) := loaded;
      var found := None;
      var c := Connection(scope.hotkey, startId);
      if IsPending(state, scope, startId) && state.pending[scope.hotkey].submitted && c in state.history {
        found := BestAttempt(Withdrawn(state, c), scope);
      }
      best := found;
      var change := ReleaseChange(state, scope, startId, found);
      if change.Failure? {
        r := Failure(change.error);
      } else {
        r := Commit(change.value, etag);
      }
    }

    method Complete(scope: Scope, startId: StartId, rejected: bool) returns (r: Result<(), QueueError>)
      modifies this, store
      ensures var next := CompleteChange(Loaded(old(Journal())), scope, startId, rejected);
              if r == Failure(ReadFailed) then Untouched()
              else if r.Success? then Confirmed(next) else Raised(r.error, Write(next, old(store.version)))
    {
      var loaded :- LoadState();
      var (state, etag) := loaded;
      r := Commit(CompleteChange(state, scope, startId, rejected), etag);
    }

    method Cancel(scope: Scope, startId: StartId) returns (r: Result<bool, QueueError>)
      modifies this, store
      ensures var (next, gone) := CancelChange(Loaded(old(Journal())), scope, startId);
              if r == Failure(ReadFailed) then Untouched()
              else if r.Success? then r.value == gone && Confirmed(next) else Raised(r.error, Write(next, old(store.version)))
    {
      var loaded :- LoadState();
      var (state, etag) := loaded;
      var (next, gone) := CancelChange(state, scope, startId);
      var _ :- Commit(next, etag);
      r := Success(gone);
    }

    /** Moves the authorised entries of other rounds to the retained creates. */
    static method Retain(state: QueueState, round: nat, now: real)
      returns (r: Result<map<Connection, CreateAttempt>, QueueError>)
      ensures r == (if exists h :: h in state.pending && Leaving(state, round, h) && h !in state.attempts
                    then Failure(KeyError) else Success(Retained(state, round, now)))
    {
      var retained, rest := state.retained, state.pending.Keys;
      ghost var moved: map<Connection, CreateAttempt> := map[];
      while rest != {}
        invariant rest <= state.pending.Keys
        invariant forall h :: h in state.pending && h !in rest && Leaving(state, round, h) ==> h in state.attempts
        invariant forall c :: c in moved <==>
                    c.hotkey in state.pending && c.hotkey !in rest && Leaving(state, round, c.hotkey)
                    && c.startId == state.pending[c.hotkey].startId
        invariant forall c :: c in moved ==> c.hotkey in state.attempts && moved[c] == state.attempts[c.hotkey]
        invariant retained == state.retained + moved
        decreases rest
      {
        var h :| h in rest;
        if Leaving(state, round, h) {
          if h !in state.attempts {
            return Failure(KeyError);
          }
          var c := Connection(h, state.pending[h].startId);
          retained := retained[c := state.attempts[h]];
          moved := moved[c := state.attempts[h]];
        }
        rest := rest - {h};
      }
      assert moved == LeftBehind(state, round);
      r := Success(map c | c in retained && now - retained[c].at as real < DISCOVERY_GRACE :: retained[c]);
    }

    method Rollover(round: nat, now: real) returns (r: Result<(), QueueError>)
      modifies this, store
      ensures var change := RolloverChange(Loaded(old(Journal())), round, now);
              if r == Failure(ReadFailed) then Untouched()
              else if change.Failure? then r == Failure(change.error) && Untouched()
              else if r.Success? then Confirmed(change.value)
              else Raised(r.error, Write(change.value, old(store.version)))
    {
      var loaded :- LoadState();
      var (state, etag) := loaded;
      var retained :- Retain(state, round, now);
      r := Commit(state.(
        retained := retained,
        pending := map h | h in state.pending && state.pending[h].round == round :: state.pending[h],
        attempts := OfRound(state.attempts, round),
        history := OfRound(state.history, round)), etag);
    }
  }
}
