/** Runs of the gateway in which any number of Pods may come to exist, whatever the fleet bound. */
module PodFleet {
  import opened Wrappers
  import opened AdmissionQueue
  import opened PodAllocation

  /** Two Pods at most, and no pause between creates. */
  const LIMITS := PodAllocation.Limits(2, 10, 0.0, 60.0)

  function ScopeOf(round: nat): Scope { Scope(round, "h") }

  const KEY := Connection("h", "s")

  function Opened(round: nat): PendingStart { PendingStart(round, "s", None, round, false) }

  /** The journal at the start of a round: at most the create of the round before is retained. */
  function Fresh(round: nat): QueueState
    requires round > 0
  {
    if round == 1 then EMPTY_QUEUE
    else QueueState(round - 1, Some(0), map[], map[], map[], map[KEY := CreateAttempt(round - 1, "s", 0, false, true)])
  }

  /** The journal once the round's start is queued, and once it is authorised. */
  function Queued(round: nat): QueueState
    requires round > 0
  {
    Fresh(round).(sequence := round, pending := map["h" := Opened(round)],
                  history := map[KEY := CreateAttempt(round, "s", 0, false, false)])
  }

  function Granted(round: nat): QueueState
    requires round > 0
  {
    var attempt := CreateAttempt(round, "s", 0, false, true);
    Queued(round).(pending := map["h" := Opened(round).(submitted := true)], attempts := map["h" := attempt],
                   history := map[KEY := attempt], lastCreateAt := Some(0))
  }

  lemma EnqueueHere(round: nat)
    requires round > 0
    ensures Loaded(Fresh(round)) == Fresh(round)
    ensures EnqueueChange(Fresh(round), ScopeOf(round), "s", None, 10, 0.0) == Success((Queued(round), Opened(round)))
  {
    assert Loaded(Fresh(round)).history == map[];
    assert Ceil(0.0) == 0;
  }

  lemma QueuedIsLoaded(round: nat)
    requires round > 0
    ensures Loaded(Queued(round)) == Queued(round)
  {
    assert Loaded(Queued(round)).history == Queued(round).history;
  }

  lemma AuthorizeHere(round: nat)
    requires round > 0
    ensures AuthorizeChange(Queued(round), ScopeOf(round), "s", 0.0, 0.0) == Success(Granted(round))
  {
    var q, r := Queued(round), Granted(round);
    QueuedFields(round);
    hide Fresh, Queued;
    assert Ceil(0.0) == 0;
    assert r.pending == q.pending["h" := q.pending["h"].(submitted := true)];
    assert r.history == q.history[KEY := r.attempts["h"]];
    assert r.attempts == q.attempts["h" := r.attempts["h"]];
  }

  lemma QueuedFields(round: nat)
    requires round > 0
    ensures Queued(round).pending == map["h" := Opened(round)] && Queued(round).attempts == map[]
    ensures Queued(round).history == map[KEY := CreateAttempt(round, "s", 0, false, false)]
  {
  }

  lemma GrantedIsLoaded(round: nat)
    requires round > 0
    ensures Loaded(Granted(round)) == Granted(round)
  {
    assert Loaded(Granted(round)).history == Granted(round).history;
  }

  /** The create of the round before gives way to this round's, which has the same key. */
  lemma RolloverHere(round: nat)
    requires round > 0
    ensures RolloverChange(Granted(round), round + 1, 0.0) == Success(Fresh(round + 1))
  {
    var q, r := Granted(round), Fresh(round + 1);
    var attempt := q.attempts["h"];
    assert Leaving(q, round + 1, "h");
    assert KEY in LeftBehind(q, round + 1);
    assert LeftBehind(q, round + 1) == map[KEY := attempt];
    assert Retained(q, round + 1, 0.0) == r.retained;
    assert OfRound(q.attempts, round + 1) == r.attempts;
    assert OfRound(q.history, round + 1) == r.history;
  }

  // ---------------------------------------------------------------- one round

  /** Within a round: the clock stands still, the cache is the journal, and every create sent may still land. */
  ghost predicate Within(s: Gateway, round: nat, q: QueueState, sent: nat) {
    && s.inputs == round && s.now == 0.0 && s.journal == s.cache == q
    && |s.posts| == sent && forall i :: 0 <= i < |s.posts| ==> s.posts[i].fate == InFlight
  }

  /** A round opens: every earlier round sent its create, and the gateway has just restarted. */
  ghost predicate Opens(s: Gateway, round: nat) {
    round > 0 && Within(s, round, Fresh(round), round - 1) && s.operations == map[] && s.worker == Idle
  }

  /** The round's create is on its way. */
  ghost predicate Sent(s: Gateway, round: nat) {
    round > 0 && Within(s, round, Granted(round), round) && s.worker == Idle
  }

  /** One retained create leaves room for another Pod. */
  lemma RoomForOne(s: Gateway, round: nat)
    requires round > 0 && Within(s, round, Queued(round), round - 1)
    requires forall scope :: scope in s.operations ==> !s.operations[scope].submitted
    ensures HasCapacity(LIMITS, s)
  {
    var counted := {Create(Scope(round - 1, "h"), "s")};
    assert VisibleSet(s.posts) == {};
    assert Uncertain(LIMITS, s) <= counted;
    SubsetCard(Uncertain(LIMITS, s), counted);
  }

  lemma Queues(s: Gateway, round: nat) returns (t: Gateway)
    requires Opens(s, round)
    ensures Follows(LIMITS, s, t) && Within(t, round, Queued(round), round - 1)
    ensures t.operations == map[] && t.worker == Idle
  {
    EnqueueHere(round);
    hide Fresh, Queued, Loaded, EnqueueChange;
    var step := Enqueue(ScopeOf(round), "s", None, Confirmed);
    assert Enabled(LIMITS, s, step);
    t := Apply(LIMITS, s, step);
  }

  lemma Acquires(s: Gateway, round: nat) returns (t: Gateway)
    requires round > 0 && Within(s, round, Queued(round), round - 1)
    requires s.operations == map[] && s.worker == Idle
    ensures Follows(LIMITS, s, t) && Within(t, round, Queued(round), round - 1) && t.worker == Idle
    ensures t.operations == map[ScopeOf(round) := Intent("s", Draining, 0.0, false)]
  {
    var step := PodAllocation.Acquire(ScopeOf(round), "s");
    assert Enabled(LIMITS, s, step);
    t := Apply(LIMITS, s, step);
  }

  lemma Admits(s: Gateway, round: nat) returns (t: Gateway)
    requires round > 0 && Within(s, round, Queued(round), round - 1) && s.worker == Idle
    requires s.operations == map[ScopeOf(round) := Intent("s", Draining, 0.0, false)]
    ensures Follows(LIMITS, s, t) && Within(t, round, Queued(round), round - 1)
    ensures t.worker == Admitted(Create(ScopeOf(round), "s"))
  {
    hide HasCapacity, Queued, Loaded, EnqueueChange, RolloverChange, ReleaseChoice;
    RoomForOne(s, round);
    var step := Admit(ScopeOf(round));
    assert Enabled(LIMITS, s, step);
    t := Apply(LIMITS, s, step);
  }

  lemma Authorises(s: Gateway, round: nat) returns (t: Gateway)
    requires round > 0 && Within(s, round, Queued(round), round - 1)
    requires s.worker == Admitted(Create(ScopeOf(round), "s"))
    ensures Follows(LIMITS, s, t) && Within(t, round, Granted(round), round - 1)
    ensures t.worker == Authorised(Create(ScopeOf(round), "s"), 0)
  {
    hide Queued, Granted, Loaded, AuthorizeChange, EnqueueChange, RolloverChange, Uncertain, ReleaseChoice;
    QueuedIsLoaded(round);
    AuthorizeHere(round);
    assert Ceil(0.0) == 0;
    var step := Authorize(Confirmed, false);
    assert Enabled(LIMITS, s, step);
    t := Apply(LIMITS, s, step);
  }

  lemma Sends(s: Gateway, round: nat) returns (t: Gateway)
    requires round > 0 && Within(s, round, Granted(round), round - 1)
    requires s.worker == Authorised(Create(ScopeOf(round), "s"), 0)
    ensures Follows(LIMITS, s, t) && Sent(t, round)
  {
    hide Granted;
    var step := Dispatch(true, Creating);
    assert Enabled(LIMITS, s, step);
    t := Apply(LIMITS, s, step);
  }

  lemma Refreshes(s: Gateway, round: nat) returns (t: Gateway)
    requires Sent(s, round)
    ensures Follows(LIMITS, s, t) && Within(t, round + 1, Granted(round), round) && t.worker == Idle
  {
    hide Granted;
    var step := Refresh(round + 1);
    assert Enabled(LIMITS, s, step);
    t := Apply(LIMITS, s, step);
  }

  lemma RollsOver(s: Gateway, round: nat) returns (t: Gateway)
    requires round > 0 && Within(s, round + 1, Granted(round), round) && s.worker == Idle
    ensures Follows(LIMITS, s, t) && Within(t, round + 1, Fresh(round + 1), round) && t.worker == Idle
  {
    GrantedIsLoaded(round);
    RolloverHere(round);
    hide Granted, Fresh, Loaded, RolloverChange, Displaced, Leaving;
    var step := Rollover(Confirmed);
    assert Enabled(LIMITS, s, step);
    t := Apply(LIMITS, s, step);
  }

  lemma Restarts(s: Gateway, round: nat) returns (t: Gateway)
    requires round > 0 && Within(s, round, Fresh(round), round - 1) && s.worker == Idle
    ensures Follows(LIMITS, s, t) && Opens(t, round)
  {
    hide Fresh, Queued, Loaded, AuthorizeChange, EnqueueChange, RolloverChange, Uncertain, ReleaseChoice;
    EnqueueHere(round);
    var step := Crash;
    assert Enabled(LIMITS, s, step);
    t := Apply(LIMITS, s, step);
  }

  // ---------------------------------------------------------------- the run

  lemma Extended(states: seq<Gateway>, s: Gateway)
    requires IsRun(LIMITS, states) && Follows(LIMITS, states[|states| - 1], s)
    ensures IsRun(LIMITS, states + [s])
  {
    hide Follows, IsStart;
    var more := states + [s];
    forall i | 0 < i < |more| ensures Follows(LIMITS, more[i - 1], more[i]) {
      if i < |states| { assert Follows(LIMITS, states[i - 1], states[i]); }
    }
  }

  /** However many rounds there are, each can send its create, with the same start identifier. */
  lemma {:induction false} EveryRoundSends(rounds: nat) returns (states: seq<Gateway>)
    requires rounds > 0
    ensures |states| > 0 && IsRun(LIMITS, states) && Sent(states[|states| - 1], rounds)
  {
    hide Follows, IsRun, Opens, Sent, Within;
    var s: Gateway;
    if rounds == 1 {
      s := Gateway(EMPTY_QUEUE, 0, {}, EMPTY_QUEUE, map[], Idle, 1, 0.0, [], {}, {});
      states := [s];
      Starts(s);
    } else {
      states := EveryRoundSends(rounds - 1);
      s := Refreshes(states[|states| - 1], rounds - 1);
      Extended(states, s);
      states := states + [s];
      s := RollsOver(s, rounds - 1);
      Extended(states, s);
      states := states + [s];
      s := Restarts(s, rounds);
      Extended(states, s);
      states := states + [s];
    }
    s := Queues(s, rounds);
    Extended(states, s);
    states := states + [s];
    s := Acquires(s, rounds);
    Extended(states, s);
    states := states + [s];
    s := Admits(s, rounds);
    Extended(states, s);
    states := states + [s];
    s := Authorises(s, rounds);
    Extended(states, s);
    states := states + [s];
    s := Sends(s, rounds);
    Extended(states, s);
    states := states + [s];
  }

  lemma Starts(s: Gateway)
    requires s == Gateway(EMPTY_QUEUE, 0, {}, EMPTY_QUEUE, map[], Idle, 1, 0.0, [], {}, {})
    ensures Opens(s, 1) && IsRun(LIMITS, [s])
  {
  }

  lemma {:induction false} AllLive(posts: seq<Post>)
    requires forall i :: 0 <= i < |posts| ==> posts[i].fate == InFlight
    ensures |LiveSet(posts)| == |posts|
  {
    if posts == [] {
      assert LiveSet(posts) == {};
    } else {
      var n := |posts| - 1;
      AllLive(posts[..n]);
      assert LiveSet(posts) == LiveSet(posts[..n]) + {n};
    }
  }

  /** The bound is two Pods, and any number of Pods may be on their way at once. */
  lemma FleetMayExceedItsBound(pods: nat) returns (states: seq<Gateway>)
    ensures IsRun(LIMITS, states) && LIMITS.maxPods == 2
    ensures |LiveSet(states[|states| - 1].posts)| >= pods
  {
    states := EveryRoundSends(pods + 1);
    AllLive(states[|states| - 1].posts);
  }
}
