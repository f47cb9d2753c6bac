/** The durable queue of Pod starts: its journal, the changes made to it, and what every change keeps.
  *
  * One journal serves one deployment, so a scope is a round and a hotkey. Rounds are numbered in the order
  * in which they open. A change is a function of the journal; the class in StartQueue.dfy applies it to the store.
  */
module AdmissionQueue {
  import opened Wrappers

  type Hotkey = string
  type StartId = string

  datatype Scope = Scope(round: nat, hotkey: Hotkey)

  /** What one create is for: a worker scope and the connection that asked for it. */
  datatype Create = Create(scope: Scope, startId: StartId)

  /** The key of a history record inside the journal. */
  datatype Connection = Connection(hotkey: Hotkey, startId: StartId)

  datatype PendingStart = PendingStart(
    round: nat, startId: StartId, predecessor: Option<StartId>, sequence: nat, submitted: bool)

  datatype CreateAttempt = CreateAttempt(
    round: nat, startId: StartId, at: int, rejected: bool, submitted: bool)

  datatype QueueState = QueueState(
    sequence: nat,
    lastCreateAt: Option<int>,
    pending: map<Hotkey, PendingStart>,
    attempts: map<Hotkey, CreateAttempt>,
    history: map<Connection, CreateAttempt>,
    retained: map<Connection, CreateAttempt>)

  datatype QueueError =
    | CreateDeferred(retryAt: real)
    | StateConflict
    | CapacityReached
    | KeyError
    | ReadFailed
    | WriteRejected
    | WriteUncertain

  const EMPTY_QUEUE := QueueState(0, None, map[], map[], map[], map[])

  /** How long an uncertain create of an old round is still counted, in seconds. */
  const DISCOVERY_GRACE := 600.0

  // ---------------------------------------------------------------- reading

  /** The journal as loaded: an attempt without a history record becomes one. */
  function Loaded(q: QueueState): QueueState {
    var filed := set h | h in q.attempts :: Connection(h, q.attempts[h].startId);
    q.(history := (map c | c in filed :: q.attempts[c.hotkey]) + q.history)
  }

  /** The pending entry of a scope, when it is the start asked about. */
  predicate IsPending(q: QueueState, scope: Scope, startId: StartId) {
    && scope.hotkey in q.pending
    && q.pending[scope.hotkey].round == scope.round
    && q.pending[scope.hotkey].startId == startId
  }

  predicate Recorded(q: QueueState, scope: Scope, startId: StartId) {
    && Connection(scope.hotkey, startId) in q.history
    && q.history[Connection(scope.hotkey, startId)].round == scope.round
  }

  /** The connection has a history record whose create was authorised. */
  predicate Submitted(q: QueueState, scope: Scope, startId: StartId) {
    Recorded(q, scope, startId) && q.history[Connection(scope.hotkey, startId)].submitted
  }

  /** The attempt a connection leads to: its own record, or the one of the start it joined. */
  function Attempt(q: QueueState, scope: Scope, startId: StartId): Option<CreateAttempt> {
    if !Recorded(q, scope, startId) then None
    else
      var record := q.history[Connection(scope.hotkey, startId)];
      var target := Connection(scope.hotkey, record.startId);
      var resolved := if target in q.history then q.history[target] else record;
      if resolved.round == scope.round then Some(resolved) else None
  }

  /** Creates that may still produce a Pod: authorised entries, and recent ones of earlier rounds. */
  function Unresolved(q: QueueState, now: real): set<Create> {
    (set h | h in q.pending && q.pending[h].submitted
       :: Create(Scope(q.pending[h].round, h), q.pending[h].startId))
    +
    (set c | c in q.retained && now - q.retained[c].at as real < DISCOVERY_GRACE
       :: Create(Scope(q.retained[c].round, c.hotkey), c.startId))
  }

  // ---------------------------------------------------------------- changes

  function EnqueueChange(q: QueueState, scope: Scope, startId: StartId, predecessor: Option<StartId>,
                         capacity: nat, now: real): Result<(QueueState, PendingStart), QueueError> {
    var c := Connection(scope.hotkey, startId);
    if scope.hotkey in q.pending then
      var current := q.pending[scope.hotkey];
      if current.round != scope.round then Failure(CreateDeferred(now + 60.0))
      else if Recorded(q, scope, startId) then Success((q, current))
      else
        var alias := CreateAttempt(scope.round, current.startId, Ceil(now), false, false);
        Success((q.(history := q.history[c := alias]), current))
    else if |q.pending| >= capacity then Failure(CapacityReached)
    else if Recorded(q, scope, startId) then Failure(StateConflict)
    else
      var entry := PendingStart(scope.round, startId, predecessor, q.sequence + 1, false);
      var first := CreateAttempt(scope.round, startId, Ceil(now), false, false);
      Success((q.(sequence := q.sequence + 1,
                  pending := q.pending[scope.hotkey := entry],
                  history := q.history[c := first]), entry))
  }

  /** The earliest instant of the next authorisation. */
  function Due(q: QueueState, interval: real): real {
    if q.lastCreateAt.None? || interval == 0.0 then 0.0 else q.lastCreateAt.value as real + interval
  }

  function AuthorizeChange(q: QueueState, scope: Scope, startId: StartId, interval: real, now: real)
    : Result<QueueState, QueueError>
  {
    if !IsPending(q, scope, startId) || q.pending[scope.hotkey].submitted then
      Failure(CreateDeferred(now + 60.0))
    else if now < Due(q, interval) then Failure(CreateDeferred(Due(q, interval)))
    else if Submitted(q, scope, startId) then Failure(StateConflict)
    else
      var attempt := CreateAttempt(scope.round, startId, Ceil(now), false, true);
      Success(q.(pending := q.pending[scope.hotkey := q.pending[scope.hotkey].(submitted := true)],
                 attempts := q.attempts[scope.hotkey := attempt],
                 history := q.history[Connection(scope.hotkey, startId) := attempt],
                 lastCreateAt := Some(Ceil(now))))
  }

  /** The connection has an authorised record of this scope. */
  predicate IsAuthorised(history: map<Connection, CreateAttempt>, scope: Scope, c: Connection) {
    && c in history && c.hotkey == scope.hotkey
    && history[c].round == scope.round && history[c].submitted
  }

  /** `best` is an authorised record of the scope with the greatest time, absent when there is none.
    * Among records made at the same second it may be any.
    */
  ghost predicate IsBest(history: map<Connection, CreateAttempt>, scope: Scope, best: Option<Connection>) {
    if best.None? then forall c :: c in history ==> !IsAuthorised(history, scope, c)
    else
      && IsAuthorised(history, scope, best.value)
      && forall c :: IsAuthorised(history, scope, c) ==> history[c].at <= history[best.value].at
  }

  /** The history once the connection's record no longer counts as authorised. */
  function Withdrawn(q: QueueState, c: Connection): map<Connection, CreateAttempt>
    requires c in q.history
  {
    q.history[c := q.history[c].(submitted := false)]
  }

  /** Returns an authorised but undispatched entry to the queue; `best` is the attempt put back on file. */
  function ReleaseChange(q: QueueState, scope: Scope, startId: StartId, best: Option<Connection>)
    : Result<QueueState, QueueError>
  {
    var c := Connection(scope.hotkey, startId);
    if !IsPending(q, scope, startId) || !q.pending[scope.hotkey].submitted then Success(q)
    else if c !in q.history then Failure(KeyError)
    else
      var history := Withdrawn(q, c);
      Success(q.(pending := q.pending[scope.hotkey := q.pending[scope.hotkey].(submitted := false)],
                 history := history,
                 attempts := if best.Some? && best.value in history
                             then q.attempts[scope.hotkey := history[best.value]]
                             else q.attempts - {scope.hotkey}))
  }

  /** `best` is the choice the queue makes when it releases this entry. */
  ghost predicate ReleaseChoice(q: QueueState, scope: Scope, startId: StartId, best: Option<Connection>) {
    (IsPending(q, scope, startId) && q.pending[scope.hotkey].submitted
     && Connection(scope.hotkey, startId) in q.history) ==>
      IsBest(Withdrawn(q, Connection(scope.hotkey, startId)), scope, best)
  }

  function CompleteChange(q: QueueState, scope: Scope, startId: StartId, rejected: bool): QueueState {
    var p := if IsPending(q, scope, startId) then q.(pending := q.pending - {scope.hotkey}) else q;
    if rejected && scope.hotkey in q.attempts && q.attempts[scope.hotkey].round == scope.round
       && q.attempts[scope.hotkey].startId == startId
    then
      var refused := q.attempts[scope.hotkey].(rejected := true);
      p.(attempts := p.attempts[scope.hotkey := refused],
         history := p.history[Connection(scope.hotkey, startId) := refused])
    else p
  }

  function CancelChange(q: QueueState, scope: Scope, startId: StartId): (QueueState, bool) {
    if scope.hotkey !in q.pending then (q, true)
    else if !IsPending(q, scope, startId) || q.pending[scope.hotkey].submitted then (q, false)
    else (q.(pending := q.pending - {scope.hotkey}), true)
  }

  /** Entries of another round whose create was authorised: they outlive the rollover as uncertain creates. */
  predicate Leaving(q: QueueState, round: nat, h: Hotkey) {
    h in q.pending && q.pending[h].round != round && q.pending[h].submitted
  }

  /** The creates an opening round leaves behind, each with the attempt on file for its hotkey. */
  function LeftBehind(q: QueueState, round: nat): map<Connection, CreateAttempt>
    requires forall h :: Leaving(q, round, h) ==> h in q.attempts
  {
    var leaving := set h | h in q.pending && Leaving(q, round, h) :: Connection(h, q.pending[h].startId);
    map c | c in leaving :: q.attempts[c.hotkey]
  }

  function Retained(q: QueueState, round: nat, now: real): map<Connection, CreateAttempt>
    requires forall h :: Leaving(q, round, h) ==> h in q.attempts
  {
    var all := q.retained + LeftBehind(q, round);
    map c | c in all && now - all[c].at as real < DISCOVERY_GRACE :: all[c]
  }

  function OfRound<K>(records: map<K, CreateAttempt>, round: nat): map<K, CreateAttempt> {
    map k | k in records && records[k].round == round :: records[k]
  }

  function RolloverChange(q: QueueState, round: nat, now: real): Result<QueueState, QueueError> {
    if exists h :: h in q.pending && Leaving(q, round, h) && h !in q.attempts then Failure(KeyError)
    else
      Success(q.(
        retained := Retained(q, round, now),
        pending := map h | h in q.pending && q.pending[h].round == round :: q.pending[h],
        attempts := OfRound(q.attempts, round),
        history := OfRound(q.history, round)))
  }

  // ---------------------------------------------------------------- what every change keeps

  /** A record that the connection's own start made, not one that joined another start. */
  ghost predicate Canonical(q: QueueState, c: Connection) {
    c in q.history && q.history[c].startId == c.startId
  }

  /** A pending entry is the round's own, has its own canonical record with the same dispatch flag, and once
    * authorised is the attempt on file for its hotkey.
    */
  ghost predicate EntryOk(q: QueueState, round: nat, h: Hotkey)
    requires h in q.pending
  {
    var entry := q.pending[h];
    var c := Connection(h, entry.startId);
    && entry.round == round && entry.sequence <= q.sequence
    && Canonical(q, c) && q.history[c].submitted == entry.submitted
    && (entry.submitted ==> h in q.attempts && q.attempts[h].startId == entry.startId)
  }

  /** A record is the round's own and leads in one hop to a canonical record of the same hotkey; an authorised
    * record is canonical and not later than the attempt on file or the last authorisation.
    */
  ghost predicate RecordOk(q: QueueState, round: nat, c: Connection)
    requires c in q.history
  {
    var record := q.history[c];
    && record.round == round
    && Canonical(q, Connection(c.hotkey, record.startId))
    && (record.submitted ==>
          && Canonical(q, c)
          && c.hotkey in q.attempts && record.at <= q.attempts[c.hotkey].at
          && q.lastCreateAt.Some? && record.at <= q.lastCreateAt.value)
  }

  /** The attempt on file is an authorised record of the hotkey. */
  ghost predicate AttemptOk(q: QueueState, h: Hotkey)
    requires h in q.attempts
  {
    var c := Connection(h, q.attempts[h].startId);
    c in q.history && q.history[c] == q.attempts[h] && q.attempts[h].submitted
  }

  ghost predicate Apart(q: QueueState, b: Connection, c: Connection) {
    (b in q.history && c in q.history && b != c && b.hotkey == c.hotkey
     && q.history[b].submitted && q.history[c].submitted) ==> q.history[b].at != q.history[c].at
  }

  /** What holds of the journal between changes while one round is open: places in the queue are distinct,
    * entries, records and attempts agree, and no two authorisations of a hotkey share a time.
    */
  ghost predicate WellFormed(q: QueueState, round: nat) {
    && (forall g, h :: g in q.pending && h in q.pending && g != h
                       ==> q.pending[g].sequence != q.pending[h].sequence)
    && (forall h {:trigger EntryOk(q, round, h)} :: h in q.pending ==> EntryOk(q, round, h))
    && (forall c {:trigger RecordOk(q, round, c)} :: c in q.history ==> RecordOk(q, round, c))
    && (forall h {:trigger AttemptOk(q, h)} :: h in q.attempts ==> AttemptOk(q, h))
    && (forall b, c {:trigger Apart(q, b, c)} :: Apart(q, b, c))
  }

  lemma LoadedIsIdentity(q: QueueState, round: nat)
    requires WellFormed(q, round)
    ensures Loaded(q) == q
  {
    forall h | h in q.attempts ensures Connection(h, q.attempts[h].startId) in q.history {
      assert AttemptOk(q, h);
    }
    assert Loaded(q).history == q.history;
  }

  /** A new entry goes behind all others, entries already queued stay as they are, and capacity is respected. */
  lemma EnqueueKeepsOrder(q: QueueState, scope: Scope, startId: StartId, predecessor: Option<StartId>,
                          capacity: nat, now: real)
    requires WellFormed(q, scope.round)
    requires EnqueueChange(q, scope, startId, predecessor, capacity, now).Success?
    ensures var (r, entry) := EnqueueChange(q, scope, startId, predecessor, capacity, now).value;
            && scope.hotkey in r.pending && r.pending[scope.hotkey] == entry
            && (|q.pending| <= capacity ==> |r.pending| <= capacity)
            && (forall h :: h in q.pending ==> h in r.pending && r.pending[h] == q.pending[h])
            && (forall h :: h in q.pending && scope.hotkey !in q.pending ==>
                  q.pending[h].sequence < entry.sequence)
  {
    forall h | h in q.pending ensures q.pending[h].sequence <= q.sequence {
      assert EntryOk(q, scope.round, h);
    }
  }

  lemma EnqueueKeepsQueue(q: QueueState, scope: Scope, startId: StartId, predecessor: Option<StartId>,
                          capacity: nat, now: real)
    requires WellFormed(q, scope.round)
    requires EnqueueChange(q, scope, startId, predecessor, capacity, now).Success?
    ensures WellFormed(EnqueueChange(q, scope, startId, predecessor, capacity, now).value.0, scope.round)
  {
    hide WellFormed;
    var (r, entry) := EnqueueChange(q, scope, startId, predecessor, capacity, now).value;
    var c := Connection(scope.hotkey, startId);
    EntryAndRecord(q, scope.round, scope.hotkey, c);
    if scope.hotkey in q.pending {
      if c !in q.history { NewRecordKeepsQueue(q, scope.round, c, r.history[c]); }
    } else {
      NewEntryKeepsQueue(q, scope.round, scope.hotkey, entry, r.history[c]);
    }
  }

  lemma EntryAndRecord(q: QueueState, round: nat, h: Hotkey, c: Connection)
    requires WellFormed(q, round)
    ensures h in q.pending ==> EntryOk(q, round, h)
    ensures c in q.history ==> RecordOk(q, round, c)
  {
    if h in q.pending { assert EntryOk(q, round, h); }
    if c in q.history { assert RecordOk(q, round, c); }
  }

  /** A first record of a connection, not authorised and leading to a canonical record. */
  lemma NewRecordKeepsQueue(q: QueueState, round: nat, c: Connection, record: CreateAttempt)
    requires WellFormed(q, round)
    requires c !in q.history && record.round == round && !record.submitted
    requires record.startId == c.startId || Canonical(q, Connection(c.hotkey, record.startId))
    ensures WellFormed(q.(history := q.history[c := record]), round)
  {
    var r := q.(history := q.history[c := record]);
    forall h | h in r.pending ensures EntryOk(r, round, h) { assert EntryOk(q, round, h); }
    forall b | b in r.history ensures RecordOk(r, round, b) {
      if b != c { assert RecordOk(q, round, b); }
    }
    forall h | h in r.attempts ensures AttemptOk(r, h) { assert AttemptOk(q, h); }
    forall b, d ensures Apart(r, b, d) { assert Apart(q, b, d); }
  }

  lemma NewEntryKeepsQueue(q: QueueState, round: nat, hotkey: Hotkey, entry: PendingStart, record: CreateAttempt)
    requires WellFormed(q, round)
    requires hotkey !in q.pending && Connection(hotkey, entry.startId) !in q.history
    requires entry.round == record.round == round && entry.startId == record.startId
    requires !entry.submitted && !record.submitted && entry.sequence == q.sequence + 1
    ensures WellFormed(q.(sequence := q.sequence + 1, pending := q.pending[hotkey := entry],
                          history := q.history[Connection(hotkey, entry.startId) := record]), round)
  {
    var c := Connection(hotkey, entry.startId);
    NewRecordKeepsQueue(q, round, c, record);
    var m := q.(history := q.history[c := record]);
    var r := m.(sequence := q.sequence + 1, pending := q.pending[hotkey := entry]);
    forall h | h in q.pending ensures q.pending[h].sequence <= q.sequence { assert EntryOk(q, round, h); }
    forall h | h in r.pending ensures EntryOk(r, round, h) {
      if h != hotkey { assert EntryOk(m, round, h); }
    }
    forall b | b in r.history ensures RecordOk(r, round, b) { assert RecordOk(m, round, b); }
    forall h | h in r.attempts ensures AttemptOk(r, h) { assert AttemptOk(m, h); }
    forall b, d ensures Apart(r, b, d) { assert Apart(m, b, d); }
  }

  /** A connection that finds its hotkey queued joins that entry: asked about later, both lead to one record. */
  lemma EnqueueAnswersConnection(q: QueueState, scope: Scope, startId: StartId, predecessor: Option<StartId>,
                                 capacity: nat, now: real)
    requires WellFormed(q, scope.round)
    requires EnqueueChange(q, scope, startId, predecessor, capacity, now).Success?
    requires !Recorded(q, scope, startId)
    ensures var (r, entry) := EnqueueChange(q, scope, startId, predecessor, capacity, now).value;
            && Attempt(r, scope, entry.startId).Some?
            && Attempt(r, scope, entry.startId).value.startId == entry.startId
            && Attempt(r, scope, startId) == Attempt(r, scope, entry.startId)
  {
    if scope.hotkey in q.pending {
      var c := Connection(scope.hotkey, q.pending[scope.hotkey].startId);
      assert EntryOk(q, scope.round, scope.hotkey) && RecordOk(q, scope.round, c);
    }
  }

  /** Authorising keeps the queue well formed when creates are spaced by a positive interval. */
  lemma AuthorizeKeepsQueue(q: QueueState, scope: Scope, startId: StartId, interval: real, now: real)
    requires WellFormed(q, scope.round) && interval > 0.0
    requires AuthorizeChange(q, scope, startId, interval, now).Success?
    ensures WellFormed(AuthorizeChange(q, scope, startId, interval, now).value, scope.round)
  {
    var r := AuthorizeChange(q, scope, startId, interval, now).value;
    var c := Connection(scope.hotkey, startId);
    assert EntryOk(q, scope.round, scope.hotkey);
    assert q.lastCreateAt.Some? ==> q.lastCreateAt.value < Ceil(now);
    forall h | h in r.pending ensures EntryOk(r, scope.round, h) { assert EntryOk(q, scope.round, h); }
    forall b | b in r.history ensures RecordOk(r, scope.round, b) { assert RecordOk(q, scope.round, b); }
    forall h | h in r.attempts ensures AttemptOk(r, h) {
      if h != scope.hotkey { assert AttemptOk(q, h); }
    }
    forall b, d ensures Apart(r, b, d) {
      assert Apart(q, b, d);
      if b in q.history { assert RecordOk(q, scope.round, b); }
      if d in q.history { assert RecordOk(q, scope.round, d); }
    }
  }

  lemma ReleaseKeepsQueue(q: QueueState, scope: Scope, startId: StartId, best: Option<Connection>)
    requires WellFormed(q, scope.round) && ReleaseChoice(q, scope, startId, best)
    ensures ReleaseChange(q, scope, startId, best).Success?
    ensures WellFormed(ReleaseChange(q, scope, startId, best).value, scope.round)
  {
    if IsPending(q, scope, startId) && q.pending[scope.hotkey].submitted {
      assert EntryOk(q, scope.round, scope.hotkey);
      var r := ReleaseChange(q, scope, startId, best).value;
      var c := Connection(scope.hotkey, startId);
      forall h | h in r.pending ensures EntryOk(r, scope.round, h) { assert EntryOk(q, scope.round, h); }
      forall b | b in r.history ensures RecordOk(r, scope.round, b) {
        assert RecordOk(q, scope.round, b);
        if b.hotkey == scope.hotkey && r.history[b].submitted { assert IsAuthorised(r.history, scope, b); }
      }
      forall h | h in r.attempts ensures AttemptOk(r, h) {
        if h == scope.hotkey { assert RecordOk(q, scope.round, best.value); } else { assert AttemptOk(q, h); }
      }
      forall b, d ensures Apart(r, b, d) { assert Apart(q, b, d); }
    }
  }

  /** Releasing what was just authorised puts the attempt on file, and every other record, back as they were. */
  lemma ReleaseUndoesAuthorize(q: QueueState, scope: Scope, startId: StartId, interval: real, now: real,
                               best: Option<Connection>)
    requires WellFormed(q, scope.round) && interval > 0.0
    requires AuthorizeChange(q, scope, startId, interval, now).Success?
    requires ReleaseChoice(AuthorizeChange(q, scope, startId, interval, now).value, scope, startId, best)
    ensures var r := ReleaseChange(AuthorizeChange(q, scope, startId, interval, now).value, scope, startId, best);
            && r.Success?
            && r.value.attempts == q.attempts && r.value.pending == q.pending
            && r.value.history - {Connection(scope.hotkey, startId)}
               == q.history - {Connection(scope.hotkey, startId)}
            && !Submitted(r.value, scope, startId)
  {
    var h, c := scope.hotkey, Connection(scope.hotkey, startId);
    var a := AuthorizeChange(q, scope, startId, interval, now).value;
    var r := ReleaseChange(a, scope, startId, best).value;
    assert EntryOk(q, scope.round, h);
    assert Withdrawn(a, c) == r.history;
    forall b | b in q.history && q.history[b].submitted ensures b.hotkey in q.attempts {
      assert RecordOk(q, scope.round, b);
    }
    if h in q.attempts {
      var latest := Connection(h, q.attempts[h].startId);
      assert AttemptOk(q, h) && RecordOk(q, scope.round, latest);
      assert IsAuthorised(r.history, scope, latest);
      assert RecordOk(q, scope.round, best.value) && Apart(q, latest, best.value);
    }
  }

  lemma CompleteKeepsQueue(q: QueueState, scope: Scope, startId: StartId, rejected: bool)
    requires WellFormed(q, scope.round)
    ensures WellFormed(CompleteChange(q, scope, startId, rejected), scope.round)
  {
    RemovingKeepsQueue(q, scope.round, scope.hotkey);
    var p := if IsPending(q, scope, startId) then q.(pending := q.pending - {scope.hotkey}) else q;
    if scope.hotkey in p.attempts && p.attempts[scope.hotkey].startId == startId {
      RejectingKeepsQueue(p, scope.round, scope.hotkey);
    }
    hide WellFormed;
  }

  lemma RemovingKeepsQueue(q: QueueState, round: nat, hotkey: Hotkey)
    requires WellFormed(q, round)
    ensures WellFormed(q.(pending := q.pending - {hotkey}), round)
  {
    var r := q.(pending := q.pending - {hotkey});
    forall h | h in r.pending ensures EntryOk(r, round, h) { assert EntryOk(q, round, h); }
    forall b | b in r.history ensures RecordOk(r, round, b) { assert RecordOk(q, round, b); }
    forall h | h in r.attempts ensures AttemptOk(r, h) { assert AttemptOk(q, h); }
    forall b, d ensures Apart(r, b, d) { assert Apart(q, b, d); }
  }

  lemma RejectingKeepsQueue(q: QueueState, round: nat, hotkey: Hotkey)
    requires WellFormed(q, round) && hotkey in q.attempts
    ensures var refused := q.attempts[hotkey].(rejected := true);
            WellFormed(q.(attempts := q.attempts[hotkey := refused],
                          history := q.history[Connection(hotkey, refused.startId) := refused]), round)
  {
    var refused := q.attempts[hotkey].(rejected := true);
    var r := q.(attempts := q.attempts[hotkey := refused],
                history := q.history[Connection(hotkey, refused.startId) := refused]);
    assert AttemptOk(q, hotkey);
    forall h | h in r.pending ensures EntryOk(r, round, h) { assert EntryOk(q, round, h); }
    forall b | b in r.history ensures RecordOk(r, round, b) { assert RecordOk(q, round, b); }
    forall h | h in r.attempts ensures AttemptOk(r, h) { assert AttemptOk(q, h); }
    forall b, d ensures Apart(r, b, d) { assert Apart(q, b, d); }
  }

  lemma CancelKeepsQueue(q: QueueState, scope: Scope, startId: StartId)
    requires WellFormed(q, scope.round)
    ensures WellFormed(CancelChange(q, scope, startId).0, scope.round)
  {
    RemovingKeepsQueue(q, scope.round, scope.hotkey);
    hide WellFormed;
  }

  /** A rollover of a well-formed queue never fails. To the round already open it changes only what is retained;
    * to another round it leaves no entry, attempt or record.
    */
  lemma RolloverSucceeds(q: QueueState, previous: nat, round: nat, now: real)
    requires WellFormed(q, previous)
    ensures RolloverChange(q, round, now).Success?
    ensures var r := RolloverChange(q, round, now).value;
            if round == previous then r == q.(retained := r.retained)
            else r.pending == map[] && r.attempts == map[] && r.history == map[]
  {
    SingleRound(q, previous);
    var r := RolloverChange(q, round, now).value;
    OfRoundIsAllOrNothing(q.attempts, previous, round);
    OfRoundIsAllOrNothing(q.history, previous, round);
    if round == previous {
      assert r.pending == q.pending;
    } else {
      assert r.pending == map[];
    }
  }

  lemma OfRoundIsAllOrNothing<K>(records: map<K, CreateAttempt>, previous: nat, round: nat)
    requires forall k :: k in records ==> records[k].round == previous
    ensures OfRound(records, round) == if round == previous then records else map[]
  {
    assert round != previous ==> OfRound(records, round) == map[];
  }

  lemma RolloverKeepsQueue(q: QueueState, previous: nat, round: nat, now: real)
    requires WellFormed(q, previous)
    ensures RolloverChange(q, round, now).Success?
    ensures WellFormed(RolloverChange(q, round, now).value, round)
  {
    RolloverSucceeds(q, previous, round, now);
    if round == previous {
      SameButRetainedKeepsQueue(q, RolloverChange(q, round, now).value, round);
    }
  }

  lemma SameButRetainedKeepsQueue(q: QueueState, r: QueueState, round: nat)
    requires WellFormed(q, round) && r == q.(retained := r.retained)
    ensures WellFormed(r, round)
  {
    forall h | h in r.pending ensures EntryOk(r, round, h) { assert EntryOk(q, round, h); }
    forall b | b in r.history ensures RecordOk(r, round, b) { assert RecordOk(q, round, b); }
    forall h | h in r.attempts ensures AttemptOk(r, h) { assert AttemptOk(q, h); }
    forall b, d ensures Apart(r, b, d) { assert Apart(q, b, d); }
  }

  /** An authorised entry of the round that ends stays unresolved exactly while its attempt is inside the grace. */
  lemma RolloverKeepsAuthorised(q: QueueState, previous: nat, round: nat, now: real, h: Hotkey)
    requires WellFormed(q, previous) && round != previous
    requires h in q.pending && q.pending[h].submitted
    ensures h in q.attempts && RolloverChange(q, round, now).Success?
    ensures Create(Scope(previous, h), q.pending[h].startId) in Unresolved(RolloverChange(q, round, now).value, now)
            <==> now - q.attempts[h].at as real < DISCOVERY_GRACE
  {
    RolloverSucceeds(q, previous, round, now);
    SingleRound(q, previous);
    var c := Connection(h, q.pending[h].startId);
    assert Leaving(q, round, h);
    assert c in LeftBehind(q, round) && LeftBehind(q, round)[c] == q.attempts[h];
    assert h !in RolloverChange(q, round, now).value.pending;
    assert AttemptOk(q, h) && RecordOk(q, previous, Connection(h, q.attempts[h].startId));
  }

  /** A create of an earlier round, still inside its grace, stays unresolved across the next rollover exactly when
    * no authorised entry of the ending round has the same hotkey and start identifier: the journal's key for a
    * retained create leaves out the round, so there is room for only one of them.
    */
  lemma RolloverKeepsRetained(q: QueueState, previous: nat, round: nat, now: real, c: Connection)
    requires WellFormed(q, previous) && round != previous
    requires c in q.retained && q.retained[c].round != previous
    requires now - q.retained[c].at as real < DISCOVERY_GRACE
    ensures RolloverChange(q, round, now).Success?
    ensures Create(Scope(q.retained[c].round, c.hotkey), c.startId)
              in Unresolved(RolloverChange(q, round, now).value, now)
            <==> !(IsPending(q, Scope(previous, c.hotkey), c.startId) && q.pending[c.hotkey].submitted)
  {
    RolloverSucceeds(q, previous, round, now);
    SingleRound(q, previous);
    assert c in LeftBehind(q, round) <==> Leaving(q, round, c.hotkey) && q.pending[c.hotkey].startId == c.startId;
  }

  /** A hotkey that uses one start identifier in two rounds: at the next rollover the older create, authorised 15
    * seconds ago, is not counted any more.
    */
  lemma RetainedCreateMayBeDisplaced()
    ensures var c := Connection("h", "s");
            var older, newer := CreateAttempt(1, "s", 100, false, true), CreateAttempt(2, "s", 110, false, true);
            var q := QueueState(1, Some(110), map["h" := PendingStart(2, "s", None, 1, true)], map["h" := newer],
                                map[c := newer], map[c := older]);
            && WellFormed(q, 2) && RolloverChange(q, 3, 115.0).Success?
            && Create(Scope(1, "h"), "s") in Unresolved(q, 115.0)
            && Create(Scope(1, "h"), "s") !in Unresolved(RolloverChange(q, 3, 115.0).value, 115.0)
  {
    var c := Connection("h", "s");
    var older, newer := CreateAttempt(1, "s", 100, false, true), CreateAttempt(2, "s", 110, false, true);
    var q := QueueState(1, Some(110), map["h" := PendingStart(2, "s", None, 1, true)], map["h" := newer],
                        map[c := newer], map[c := older]);
    assert WellFormed(q, 2);
    assert IsPending(q, Scope(2, "h"), "s");
    RolloverKeepsRetained(q, 2, 3, 115.0, c);
  }

  lemma SingleRound(q: QueueState, round: nat)
    requires WellFormed(q, round)
    ensures forall h :: h in q.pending ==>
              q.pending[h].round == round && (q.pending[h].submitted ==> h in q.attempts)
    ensures forall h :: h in q.attempts ==> q.attempts[h].round == round
    ensures forall c :: c in q.history ==> q.history[c].round == round
  {
    forall h | h in q.attempts ensures q.attempts[h].round == round {
      assert AttemptOk(q, h) && RecordOk(q, round, Connection(h, q.attempts[h].startId));
    }
    forall h | h in q.pending ensures q.pending[h].round == round
      ensures q.pending[h].submitted ==> h in q.attempts
    {
      assert EntryOk(q, round, h);
    }
    forall c | c in q.history ensures q.history[c].round == round { assert RecordOk(q, round, c); }
  }
}
