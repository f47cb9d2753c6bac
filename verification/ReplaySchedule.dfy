/** The record and replay scheduler: model-call boundaries are logged with ticks while an execution runs, and waits
  * restore the logged order when it runs again. A boundary is the entry or the exit of one observed operation.
  */
module ReplaySchedule {
  import opened Wrappers

  datatype Action = Create | Next | Close

  /** Which operation of which call: request, occurrence of that request, stream action and its index. */
  datatype Identity = Identity(request: string, occurrence: nat, action: Action, index: nat)

  datatype Observation = Observation(
    identity: Identity, stream: bool, entered: nat, exited: Option<int>, outcome: Option<string>)

  datatype Execution = Execution(observations: seq<Observation>, finished: bool, output: Option<string>)

  datatype Boundary = Enter(index: nat) | Exit(index: nat)

  // ---------------------------------------------------------------- ticks

  function OwnTicks(o: Observation): multiset<int> {
    multiset{o.entered} + if o.exited.Some? then multiset{o.exited.value} else multiset{}
  }

  function Ticks(observations: seq<Observation>): multiset<int> {
    if observations == [] then multiset{}
    else Ticks(observations[..|observations| - 1]) + OwnTicks(observations[|observations| - 1])
  }

  /** The ticks 0, 1, ..., n - 1, each once. */
  function FirstTicks(n: nat): multiset<int> {
    if n == 0 then multiset{} else FirstTicks(n - 1) + multiset{n - 1}
  }

  predicate DistinctIdentities(observations: seq<Observation>) {
    forall i, j :: 0 <= i < j < |observations| ==> observations[i].identity != observations[j].identity
  }

  /** The test an execution must pass before it is run: distinct identities, ticks without gap or repetition,
    * exits after entries, and nothing open once finished.
    */
  predicate Loadable(e: Execution) {
    && DistinctIdentities(e.observations)
    && Ticks(e.observations) == FirstTicks(|Ticks(e.observations)|)
    && (forall i :: 0 <= i < |e.observations| && e.observations[i].exited.Some? ==>
          e.observations[i].exited.value > e.observations[i].entered)
    && (e.finished ==> forall i :: 0 <= i < |e.observations| ==> e.observations[i].exited.Some?)
  }

  lemma {:induction false} FirstTicksCount(n: nat)
    ensures |FirstTicks(n)| == n
    ensures forall t :: FirstTicks(n)[t] == if 0 <= t < n then 1 else 0
  {
    if n > 0 { FirstTicksCount(n - 1); }
  }

  lemma {:induction false} TicksContain(observations: seq<Observation>, i: nat)
    requires i < |observations|
    ensures observations[i].entered in Ticks(observations)
    ensures observations[i].exited.Some? ==> observations[i].exited.value in Ticks(observations)
  {
    if i < |observations| - 1 { TicksContain(observations[..|observations| - 1], i); }
  }

  lemma {:induction false} TickHasBoundary(observations: seq<Observation>, t: int) returns (b: Boundary)
    requires t in Ticks(observations)
    ensures Recorded(observations, b) && TickOf(observations, b) == t
  {
    var n := |observations| - 1;
    if t in OwnTicks(observations[n]) {
      b := if t == observations[n].entered then Enter(n) else Exit(n);
    } else {
      b := TickHasBoundary(observations[..n], t);
    }
  }

  lemma {:induction false} ClosingAddsTick(observations: seq<Observation>, i: nat, closed: Observation)
    requires i < |observations| && observations[i].exited.None?
    requires closed.exited.Some? && closed.entered == observations[i].entered
    ensures Ticks(observations[i := closed]) == Ticks(observations) + multiset{closed.exited.value}
  {
    var n, updated := |observations| - 1, observations[i := closed];
    if i == n {
      assert updated[..n] == observations[..n];
    } else {
      ClosingAddsTick(observations[..n], i, closed);
      assert updated[..n] == observations[..n][i := closed];
      assert updated[n] == observations[n];
    }
  }

  lemma OpeningAddsTick(observations: seq<Observation>, o: Observation)
    requires o.exited.None?
    ensures Ticks(observations + [o]) == Ticks(observations) + multiset{o.entered}
  {
    assert (observations + [o])[..|observations|] == observations;
  }

  // ---------------------------------------------------------------- order

  /** The boundary carries a tick in the log. */
  predicate Recorded(observations: seq<Observation>, b: Boundary) {
    b.index < |observations| && (b.Exit? ==> observations[b.index].exited.Some?)
  }

  function TickOf(observations: seq<Observation>, b: Boundary): int
    requires Recorded(observations, b)
  {
    match b
    case Enter(i) => observations[i].entered
    case Exit(i) => observations[i].exited.value
  }

  /** The order between two boundaries that a replay restores; two entries may swap. */
  predicate MustPrecede(observations: seq<Observation>, a: Boundary, b: Boundary) {
    && Recorded(observations, a) && Recorded(observations, b)
    && TickOf(observations, a) < TickOf(observations, b)
    && !(a.Enter? && b.Enter?)
  }

  /** The condition an entry waits for. */
  predicate EnterReady(observations: seq<Observation>, done: set<Identity>, entered: int) {
    forall j :: 0 <= j < |observations| && observations[j].exited.Some? && observations[j].exited.value < entered
                ==> observations[j].identity in done
  }

  /** The condition a replayed exit waits for. */
  predicate ExitReady(observations: seq<Observation>, started: set<Identity>, done: set<Identity>, exited: int) {
    forall j :: 0 <= j < |observations| ==>
      && (observations[j].entered < exited ==> observations[j].identity in started)
      && (observations[j].exited.Some? && observations[j].exited.value < exited ==> observations[j].identity in done)
  }

  predicate Fired(observations: seq<Observation>, started: set<Identity>, done: set<Identity>, b: Boundary)
    requires b.index < |observations|
  {
    observations[b.index].identity in if b.Enter? then started else done
  }

  /** The boundary's wait is over, for a boundary whose caller has arrived. */
  predicate Ready(observations: seq<Observation>, started: set<Identity>, done: set<Identity>, b: Boundary)
    requires Recorded(observations, b)
  {
    match b
    case Enter(i) => EnterReady(observations, done, observations[i].entered)
    case Exit(i) =>
      && observations[i].identity in started
      && ExitReady(observations, started, done, observations[i].exited.value)
  }

  predicate Complete(observations: seq<Observation>, started: set<Identity>, done: set<Identity>) {
    forall i :: 0 <= i < |observations| ==>
      observations[i].identity in started && observations[i].identity in done
  }

  /** A replay cannot get stuck: while a recorded boundary has not fired, the one with the smallest tick is ready. */
  lemma SmallestUnfiredIsReady(e: Execution, started: set<Identity>, done: set<Identity>) returns (b: Boundary)
    requires Loadable(e)
    requires exists u :: Recorded(e.observations, u) && !Fired(e.observations, started, done, u)
    ensures Recorded(e.observations, b) && !Fired(e.observations, started, done, b)
    ensures Ready(e.observations, started, done, b)
    ensures forall a :: Recorded(e.observations, a) && TickOf(e.observations, a) < TickOf(e.observations, b)
                        ==> Fired(e.observations, started, done, a)
  {
    var observations := e.observations;
    var u :| Recorded(observations, u) && !Fired(observations, started, done, u);
    b := u;
    FirstTicksCount(|Ticks(observations)|);
    TicksContain(observations, u.index);
    while exists a :: Recorded(observations, a) && TickOf(observations, a) < TickOf(observations, b)
                      && !Fired(observations, started, done, a)
      invariant Recorded(observations, b) && !Fired(observations, started, done, b)
      invariant TickOf(observations, b) >= 0
      decreases TickOf(observations, b)
    {
      var a :| Recorded(observations, a) && TickOf(observations, a) < TickOf(observations, b)
               && !Fired(observations, started, done, a);
      TicksContain(observations, a.index);
      b := a;
    }
    forall j | 0 <= j < |observations|
      ensures observations[j].entered < TickOf(observations, b) ==> observations[j].identity in started
      ensures observations[j].exited.Some? && observations[j].exited.value < TickOf(observations, b)
              ==> observations[j].identity in done
    {
      assert Recorded(observations, Enter(j));
      if observations[j].exited.Some? { assert Recorded(observations, Exit(j)); }
    }
    if b.Exit? {
      assert Recorded(observations, Enter(b.index));
    }
  }

  /** Firing the boundaries in this order never waits, and leaves nothing to fire. */
  ghost predicate Drains(observations: seq<Observation>, started: set<Identity>, done: set<Identity>,
                         order: seq<Boundary>)
    decreases |order|
  {
    if order == [] then Complete(observations, started, done)
    else
      var b := order[0];
      && Recorded(observations, b) && Ready(observations, started, done, b)
      && !Fired(observations, started, done, b)
      && if b.Enter? then Drains(observations, started + {observations[b.index].identity}, done, order[1..])
         else Drains(observations, started, done + {observations[b.index].identity}, order[1..])
  }

  function Identities(observations: seq<Observation>): set<Identity> {
    set i | 0 <= i < |observations| :: observations[i].identity
  }

  /** Boundaries that have not fired. */
  ghost function Remaining(observations: seq<Observation>, started: set<Identity>, done: set<Identity>): nat {
    |Identities(observations) - started| + |Identities(observations) - done|
  }

  /** Every firing leaves fewer boundaries to fire. */
  lemma FiringShrinksRemaining(observations: seq<Observation>, started: set<Identity>, done: set<Identity>,
                               b: Boundary)
    requires b.index < |observations| && !Fired(observations, started, done, b)
    ensures var identity := observations[b.index].identity;
            Remaining(observations, if b.Enter? then started + {identity} else started,
                      if b.Enter? then done else done + {identity})
            < Remaining(observations, started, done)
  {
    var identity, all := observations[b.index].identity, Identities(observations);
    assert identity in all;
    if b.Enter? {
      assert all - (started + {identity}) == (all - started) - {identity};
    } else {
      assert all - (done + {identity}) == (all - done) - {identity};
    }
  }

  /** From every state of the replay of a finished log the rest of the log can be fired without a single wait. */
  lemma {:induction false} ReplayCompletes(e: Execution, started: set<Identity>, done: set<Identity>)
    returns (order: seq<Boundary>)
    requires Loadable(e) && forall i :: 0 <= i < |e.observations| ==> e.observations[i].exited.Some?
    ensures Drains(e.observations, started, done, order)
    decreases Remaining(e.observations, started, done)
  {
    var observations := e.observations;
    if Complete(observations, started, done) {
      order := [];
    } else {
      var i :| 0 <= i < |observations|
               && !(observations[i].identity in started && observations[i].identity in done);
      assert Recorded(observations, Enter(i)) && Recorded(observations, Exit(i));
      assert !Fired(observations, started, done, Enter(i)) || !Fired(observations, started, done, Exit(i));
      var b := SmallestUnfiredIsReady(e, started, done);
      hide Loadable, Ready, Complete, Remaining;
      FiringShrinksRemaining(observations, started, done, b);
      var identity := observations[b.index].identity;
      var rest;
      if b.Enter? {
        rest := ReplayCompletes(e, started + {identity}, done);
      } else {
        rest := ReplayCompletes(e, started, done + {identity});
      }
      order := [b] + rest;
      assert order[0] == b && order[1..] == rest;
    }
  }

  // ---------------------------------------------------------------- an exit that does not wait

  /** An operation left open by a crash is run again live, and its exit waits for nothing. Here it returns before a
    * logged operation has even been entered, yet its exit is logged after that operation's exit.
    */
  lemma OpenExitMayOvertake()
    ensures var first := Observation(Identity("a", 0, Create, 0), false, 0, Some(2), Some("return"));
            var open := Observation(Identity("b", 0, Create, 0), false, 1, None, None);
            var closed := open.(exited := Some(3), outcome := Some("return"));
            && Loadable(Execution([first, open], false, None))
            && EnterReady([first, open], {}, open.entered)
            && MustPrecede([first, closed], Exit(0), Exit(1))
            && MustPrecede([first, closed], Enter(0), Exit(1))
            && !Fired([first, closed], {open.identity}, {open.identity}, Enter(0))
  {
    var first := Observation(Identity("a", 0, Create, 0), false, 0, Some(2), Some("return"));
    var open := Observation(Identity("b", 0, Create, 0), false, 1, None, None);
    assert Ticks([first]) == multiset{0, 2} by { assert [first][..0] == []; }
    assert Ticks([first, open]) == multiset{0, 1, 2} by { assert [first, open][..1] == [first]; }
    assert FirstTicks(3) == multiset{0, 1, 2} by {
      assert FirstTicks(2) == FirstTicks(1) + multiset{1} && FirstTicks(1) == FirstTicks(0) + multiset{0};
    }
    assert |multiset{0, 1, 2}| == 3;
  }

  // ---------------------------------------------------------------- the order kept by a run

  /** The exit of an operation that was open when the log was loaded. */
  ghost predicate Resumed(loaded: seq<Observation>, b: Boundary) {
    b.Exit? && b.index < |loaded| && loaded[b.index].exited.None?
  }

  /** Every boundary that had to fire before the one at this place of the log did. */
  ghost predicate InOrder(observations: seq<Observation>, log: seq<Boundary>, place: nat)
    requires place < |log|
  {
    forall a: Boundary :: MustPrecede(observations, a, log[place]) ==> a in log[..place]
  }

  /** The logged order was kept by every boundary fired so far, resumed exits apart. */
  ghost predicate OrderKept(observations: seq<Observation>, loaded: seq<Observation>, log: seq<Boundary>) {
    && (forall b :: b in log ==> Recorded(observations, b))
    && (forall place: nat :: place < |log| && !Resumed(loaded, log[place]) ==> InOrder(observations, log, place))
  }

  lemma FiringKeepsOrder(observations: seq<Observation>, loaded: seq<Observation>, log: seq<Boundary>, b: Boundary)
    requires OrderKept(observations, loaded, log) && Recorded(observations, b)
    requires !Resumed(loaded, b) ==> forall a: Boundary :: MustPrecede(observations, a, b) ==> a in log
    ensures OrderKept(observations, loaded, log + [b])
  {
    var longer := log + [b];
    forall place: nat | place < |longer| && !Resumed(loaded, longer[place])
      ensures InOrder(observations, longer, place)
    {
      if place < |log| {
        assert InOrder(observations, log, place);
        assert longer[..place] == log[..place];
      } else {
        assert longer[..place] == log;
      }
    }
  }

  /** New ticks are later than all others, so recording one does not change what had to precede what has fired. */
  lemma RecordingKeepsOrder(observations: seq<Observation>, loaded: seq<Observation>, log: seq<Boundary>,
                            more: seq<Observation>, b: Boundary)
    requires OrderKept(observations, loaded, log) && |observations| <= |more|
    requires b !in log && Recorded(more, b)
    requires forall a: Boundary :: Recorded(more, a) && a != b ==>
               Recorded(observations, a) && TickOf(more, a) == TickOf(observations, a)
    requires forall a: Boundary :: Recorded(observations, a) ==>
               Recorded(more, a) && TickOf(observations, a) < TickOf(more, b)
    ensures OrderKept(more, loaded, log)
  {
    forall place: nat | place < |log| && !Resumed(loaded, log[place])
      ensures InOrder(more, log, place)
    {
      assert InOrder(observations, log, place);
      assert log[place] in log;
      forall a: Boundary | MustPrecede(more, a, log[place]) ensures a in log[..place] {
        assert MustPrecede(observations, a, log[place]);
      }
    }
  }

  lemma {:induction false} IdentitiesCount(observations: seq<Observation>)
    requires DistinctIdentities(observations)
    ensures |Identities(observations)| == |observations|
  {
    if observations != [] {
      var n := |observations| - 1;
      IdentitiesCount(observations[..n]);
      assert Identities(observations) == Identities(observations[..n]) + {observations[n].identity};
    }
  }

  /** Ticks in use are those below the next one. */
  lemma TicksAreBelow(e: Execution, b: Boundary)
    requires Loadable(e) && Recorded(e.observations, b)
    ensures 0 <= TickOf(e.observations, b) < |Ticks(e.observations)|
  {
    FirstTicksCount(|Ticks(e.observations)|);
    TicksContain(e.observations, b.index);
  }

  ghost predicate LogsFired(observations: seq<Observation>, started: set<Identity>, done: set<Identity>,
                            log: seq<Boundary>)
  {
    forall b: Boundary :: b.index < |observations| ==> (b in log <==> Fired(observations, started, done, b))
  }

  /** Every operation in the log has been entered again, and left again where the log has it leave. */
  predicate CaughtUp(observations: seq<Observation>, started: set<Identity>, done: set<Identity>) {
    forall i :: 0 <= i < |observations| ==>
      observations[i].identity in started && (observations[i].exited.Some? ==> observations[i].identity in done)
  }

  lemma CaughtUpMeansAllFired(observations: seq<Observation>, started: set<Identity>, done: set<Identity>,
                              log: seq<Boundary>)
    requires LogsFired(observations, started, done, log)
    ensures CaughtUp(observations, started, done) <==> forall a :: Recorded(observations, a) ==> a in log
  {
    if forall a :: Recorded(observations, a) ==> a in log {
      forall i | 0 <= i < |observations|
        ensures observations[i].identity in started
        ensures observations[i].exited.Some? ==> observations[i].identity in done
      {
        assert Recorded(observations, Enter(i)) && (observations[i].exited.Some? ==> Recorded(observations, Exit(i)));
      }
    }
  }

  /** An exit that gets the next tick is in its place exactly when the run has caught up with the log. */
  lemma LiveExitOrder(e: Execution, loaded: seq<Observation>, started: set<Identity>, done: set<Identity>,
                      log: seq<Boundary>, index: nat, closed: Observation)
    requires Loadable(e) && OrderKept(e.observations, loaded, log) && LogsFired(e.observations, started, done, log)
    requires index < |e.observations| && e.observations[index].exited.None? && e.observations[index].identity !in done
    requires closed == e.observations[index].(exited := Some(|Ticks(e.observations)|), outcome := closed.outcome)
    requires !Resumed(loaded, Exit(index)) ==> CaughtUp(e.observations, started, done)
    ensures OrderKept(e.observations[index := closed], loaded, log + [Exit(index)])
    ensures InOrder(e.observations[index := closed], log + [Exit(index)], |log|)
            <==> CaughtUp(e.observations, started, done)
  {
    hide Loadable, Ticks, OrderKept, CaughtUp;
    var more, b := e.observations[index := closed], Exit(index);
    CaughtUpMeansAllFired(e.observations, started, done, log);
    assert b !in log by { assert !Fired(e.observations, started, done, b); }
    hide LogsFired;
    forall a | Recorded(e.observations, a)
      ensures Recorded(more, a) && TickOf(e.observations, a) < TickOf(more, b)
    {
      TicksAreBelow(e, a);
    }
    RecordingKeepsOrder(e.observations, loaded, log, more, b);
    assert forall a :: MustPrecede(more, a, b) <==> Recorded(e.observations, a);
    FiringKeepsOrder(more, loaded, log, b);
    assert (log + [b])[..|log|] == log;
  }

  lemma OpeningKeepsOrder(observations: seq<Observation>, loaded: seq<Observation>, log: seq<Boundary>, entry: Observation)
    requires OrderKept(observations, loaded, log) && entry.exited.None?
    requires forall a :: Recorded(observations, a) ==> TickOf(observations, a) < entry.entered && a in log
    ensures OrderKept(observations + [entry], loaded, log + [Enter(|observations|)])
  {
    var more, b := observations + [entry], Enter(|observations|);
    hide InOrder;
    RecordingKeepsOrder(observations, loaded, log, more, b);
    FiringKeepsOrder(more, loaded, log, b);
  }

  lemma SameIdentities(observations: seq<Observation>, more: seq<Observation>)
    requires |observations| == |more|
    requires forall i :: 0 <= i < |more| ==> more[i].identity == observations[i].identity
    ensures Identities(observations) == Identities(more)
  {
    assert forall x :: x in Identities(observations) <==> x in Identities(more);
  }

  lemma SubsetOfSameSize<T>(a: set<T>, b: set<T>)
    requires a <= b && |a| == |b|
    ensures a == b
  {
    assert |b - a| == |b| - |a|;
  }

  lemma FinishingKeepsLoadable(e: Execution, result: Option<string>)
    requires Loadable(e) && forall i :: 0 <= i < |e.observations| ==> e.observations[i].exited.Some?
    ensures Loadable(Execution(e.observations, true, result))
  {
  }

  lemma DistinctOf(e: Execution)
    requires Loadable(e)
    ensures DistinctIdentities(e.observations)
  {
  }

  lemma OpeningKeepsLoadable(e: Execution, o: Observation)
    requires Loadable(e) && !e.finished
    requires o.identity !in Identities(e.observations) && o.exited.None? && o.entered == |Ticks(e.observations)|
    ensures Loadable(e.(observations := e.observations + [o]))
    ensures |Ticks(e.observations + [o])| == |Ticks(e.observations)| + 1
  {
    hide Ticks, FirstTicks;
    OpeningAddsTick(e.observations, o);
    NextTick(e.observations, e.observations + [o]);
    assert forall i :: 0 <= i < |e.observations| ==> e.observations[i].identity in Identities(e.observations);
  }

  /** One more tick, the next one. */
  lemma NextTick(observations: seq<Observation>, more: seq<Observation>)
    requires Ticks(observations) == FirstTicks(|Ticks(observations)|)
    requires Ticks(more) == Ticks(observations) + multiset{|Ticks(observations)|}
    ensures Ticks(more) == FirstTicks(|Ticks(more)|) && |Ticks(more)| == |Ticks(observations)| + 1
  {
    hide Ticks;
    assert FirstTicks(|Ticks(observations)| + 1) == FirstTicks(|Ticks(observations)|) + multiset{|Ticks(observations)|};
  }

  lemma DistinctAlike(observations: seq<Observation>, more: seq<Observation>)
    requires DistinctIdentities(observations) && |observations| == |more|
    requires forall i :: 0 <= i < |more| ==> more[i].identity == observations[i].identity
    ensures DistinctIdentities(more)
  {
  }

  lemma ClosingKeepsLoadable(e: Execution, i: nat, closed: Observation)
    requires Loadable(e) && i < |e.observations| && e.observations[i].exited.None?
    requires closed == e.observations[i].(exited := Some(|Ticks(e.observations)|), outcome := closed.outcome)
    ensures Loadable(e.(observations := e.observations[i := closed]))
    ensures |Ticks(e.observations[i := closed])| == |Ticks(e.observations)| + 1
  {
    hide Ticks, FirstTicks, DistinctIdentities;
    var updated := e.observations[i := closed];
    ClosingAddsTick(e.observations, i, closed);
    NextTick(e.observations, updated);
    TicksAreBelow(e, Enter(i));
    assert forall k :: 0 <= k < |updated| && k != i ==> updated[k] == e.observations[k];
    DistinctAlike(e.observations, updated);
  }

  // ---------------------------------------------------------------- the scheduler

  function Find(observations: seq<Observation>, identity: Identity): (r: Option<nat>)
    ensures r.Some? ==> r.value < |observations| && observations[r.value].identity == identity
    ensures r.None? ==> identity !in Identities(observations)
  {
    if observations == [] then None
    else
      var n := |observations| - 1;
      if observations[n].identity == identity then Some(n)
      else
        assert Identities(observations) == Identities(observations[..n]) + {observations[n].identity};
        Find(observations[..n], identity)
  }

  /** The log still has what was loaded, and what it has beyond that was entered in this run. */
  predicate ExtendsLoaded(loaded: seq<Observation>, observations: seq<Observation>, saved: set<Identity>,
                          started: set<Identity>, done: set<Identity>)
  {
    && |loaded| <= |observations|
    && (forall i :: 0 <= i < |loaded| ==>
          if loaded[i].exited.Some? then observations[i] == loaded[i]
          else observations[i].identity == loaded[i].identity && observations[i].entered == loaded[i].entered)
    && (forall i :: |loaded| <= i < |observations| ==> observations[i].identity in started)
    && (|loaded| < |observations| ==> saved <= done)
  }

  /** Operations that are done have an exit, and exits beyond those loaded are of operations that are done. */
  predicate ExitsDone(loaded: seq<Observation>, observations: seq<Observation>, done: set<Identity>) {
    forall i :: 0 <= i < |observations| ==>
      && (observations[i].identity in done ==> observations[i].exited.Some?)
      && (observations[i].exited.Some? && !(i < |loaded| && loaded[i].exited.Some?) ==> observations[i].identity in done)
  }

  /** Nothing has fired yet. */
  lemma InitialState(observations: seq<Observation>, saved: set<Identity>)
    ensures ExtendsLoaded(observations, observations, saved, {}, {}) && ExitsDone(observations, observations, {})
    ensures LogsFired(observations, {}, {}, []) && OrderKept(observations, observations, [])
  {
  }

  /** Firing an entry or a logged exit. */
  lemma FiredState(loaded: seq<Observation>, observations: seq<Observation>, saved: set<Identity>,
                   started: set<Identity>, done: set<Identity>, log: seq<Boundary>, b: Boundary)
    requires DistinctIdentities(observations) && Recorded(observations, b)
    requires ExtendsLoaded(loaded, observations, saved, started, done) && ExitsDone(loaded, observations, done)
    requires LogsFired(observations, started, done, log)
    ensures var identity := observations[b.index].identity;
            var s, d := if b.Enter? then started + {identity} else started, if b.Enter? then done else done + {identity};
            && ExtendsLoaded(loaded, observations, saved, s, d) && ExitsDone(loaded, observations, d)
            && LogsFired(observations, s, d, log + [b])
  {
    var identity := observations[b.index].identity;
    assert forall i :: 0 <= i < |observations| && observations[i].identity == identity ==> i == b.index;
  }

  /** An operation that the log did not have is logged and entered. */
  lemma OpenedState(loaded: seq<Observation>, observations: seq<Observation>, saved: set<Identity>,
                    started: set<Identity>, done: set<Identity>, log: seq<Boundary>, entry: Observation)
    requires ExtendsLoaded(loaded, observations, saved, started, done) && ExitsDone(loaded, observations, done)
    requires LogsFired(observations, started, done, log) && saved <= done <= started <= Identities(observations)
    requires entry.identity !in Identities(observations) && entry.exited.None?
    requires forall b :: b in log ==> b.index < |observations|
    ensures var more, s := observations + [entry], started + {entry.identity};
            && ExtendsLoaded(loaded, more, saved, s, done) && ExitsDone(loaded, more, done)
            && LogsFired(more, s, done, log + [Enter(|observations|)]) && s <= Identities(more)
  {
    var more, s, n := observations + [entry], started + {entry.identity}, |observations|;
    assert forall i :: 0 <= i < n ==> more[i] == observations[i] && observations[i].identity in Identities(observations);
    assert more[n] == entry;
    forall x | x in s ensures x in Identities(more) {
      if x == entry.identity {
        assert more[n].identity == x;
      } else {
        assert x in Identities(observations);
      }
    }
  }

  /** An operation leaves with an exit that the log did not have. */
  lemma ClosedState(loaded: seq<Observation>, observations: seq<Observation>, saved: set<Identity>,
                    started: set<Identity>, done: set<Identity>, log: seq<Boundary>, index: nat, closed: Observation)
    requires DistinctIdentities(observations) && index < |observations| && observations[index].exited.None?
    requires ExtendsLoaded(loaded, observations, saved, started, done) && ExitsDone(loaded, observations, done)
    requires LogsFired(observations, started, done, log)
    requires closed.identity == observations[index].identity && closed.entered == observations[index].entered
    requires closed.exited.Some?
    ensures var more, d := observations[index := closed], done + {closed.identity};
            && ExtendsLoaded(loaded, more, saved, started, d) && ExitsDone(loaded, more, d)
            && LogsFired(more, started, d, log + [Exit(index)])
  {
    var more := observations[index := closed];
    assert forall i :: 0 <= i < |observations| && i != index ==> more[i] == observations[i];
    assert forall i :: 0 <= i < |observations| && observations[i].identity == closed.identity ==> i == index;
    var d, longer := done + {closed.identity}, log + [Exit(index)];
    forall b: Boundary | b.index < |more| ensures b in longer <==> Fired(more, started, d, b) {
      assert b in log <==> Fired(observations, started, done, b);
      assert more[b.index].identity == observations[b.index].identity;
    }
    forall i | 0 <= i < |more|
      ensures more[i].identity in d ==> more[i].exited.Some?
      ensures more[i].exited.Some? && !(i < |loaded| && loaded[i].exited.Some?) ==> more[i].identity in d
    {
      if i != index { assert more[i] == observations[i]; }
    }
  }

  datatype Step = Entered(replay: bool) | Exited | Waits | Mismatch

  class Schedule {
    var observations: seq<Observation>
    var finished: bool
    var output: Option<string>
    var tick: nat
    const saved: set<Identity>
    var started: set<Identity>
    var done: set<Identity>
    var counts: map<string, nat>
    var failed: bool
    const record: bool
    /** Whether snapshots are written, and the last one that was. */
    const persistent: bool
    var disk: Execution

    /** The log as loaded, and the boundaries fired since, in order. */
    ghost const loaded: seq<Observation>
    ghost var log: seq<Boundary>

    ghost predicate Valid()
      reads this
    {
      && Loadable(Execution(observations, finished, output))
      && tick == |Ticks(observations)|
      && (persistent ==> Loadable(disk))
      && saved == Identities(loaded) && done <= started <= Identities(observations)
      && ExtendsLoaded(loaded, observations, saved, started, done)
      && ExitsDone(loaded, observations, done) && LogsFired(observations, started, done, log)
      && OrderKept(observations, loaded, log)
    }

    constructor (execution: Execution, record: bool, persistent: bool)
      requires Loadable(execution)
      ensures Valid() && observations == loaded == execution.observations && log == [] && !failed
      ensures finished == execution.finished && this.persistent == persistent
    {
      InitialState(execution.observations, Identities(execution.observations));
      hide Loadable, Ticks, ExtendsLoaded, ExitsDone, LogsFired, OrderKept, Identities;
      observations, finished, output := execution.observations, execution.finished, execution.output;
      tick := |Ticks(execution.observations)|;
      saved := Identities(execution.observations);
      started, done, counts, failed := {}, {}, map[], false;
      this.record, this.persistent := record || persistent, persistent;
      disk := execution;
      loaded, log := execution.observations, [];
    }

    /** An execution is taken up exactly when it is loadable. */
    static method Load(execution: Execution, record: bool, persistent: bool) returns (s: Option<Schedule>)
      ensures s.Some? <==> Loadable(execution)
      ensures s.Some? ==> fresh(s.value) && s.value.Valid() && s.value.loaded == execution.observations
    {
      if !Loadable(execution) {
        return None;
      }
      var schedule := new Schedule(execution, record, persistent);
      s := Some(schedule);
    }

    method Persist()
      requires Loadable(Execution(observations, finished, output))
      modifies this`disk
      ensures disk == if persistent then Execution(observations, finished, output) else old(disk)
    {
      if persistent {
        disk := Execution(observations, finished, output);
      }
    }

    /** Numbers the calls of one request. */
    method Occurrence(request: string) returns (value: nat)
      modifies this`counts
      ensures value == if request in old(counts) then old(counts)[request] else 0
      ensures counts == old(counts)[request := value + 1]
    {
      value := if request in counts then counts[request] else 0;
      counts := counts[request := value + 1];
    }

    /** A wait that ran out, or any other disagreement with the log, fails the whole run. */
    method Fail() returns (step: Step)
      requires Valid()
      modifies this`failed
      ensures Valid() && failed && step == Mismatch
    {
      hide Loadable, OrderKept, LogsFired, ExtendsLoaded, ExitsDone;
      failed := true;
      step := Mismatch;
    }

    /** The caller disagrees with the log: it asks for what a log that is complete, or only read, does not have, for an
      * operation of the other interface, or for one that was entered already.
      */
    predicate Disagrees(identity: Identity, stream: bool)
      reads this`observations, this`finished, this`started
    {
      if identity !in Identities(observations) then !record || finished
      else
        || identity in started
        || exists i :: 0 <= i < |observations| && observations[i].identity == identity && observations[i].stream != stream
    }

    /** The operation's turn has not come: a logged exit before its entry, or any at all before a new one, is to come. */
    predicate TooEarly(identity: Identity)
      reads this`observations, this`done
    {
      if identity !in Identities(observations) then exists x :: x in saved && x !in done
      else
        exists i, j :: 0 <= i < |observations| && observations[i].identity == identity
          && 0 <= j < |observations| && observations[j].exited.Some? && observations[j].exited.value < observations[i].entered
          && observations[j].identity !in done
    }

    /** What the places of the one observation with this identity say. */
    lemma AtIndex(index: nat, stream: bool)
      requires DistinctIdentities(observations) && index < |observations|
      ensures var entry := observations[index];
              && entry.identity in Identities(observations)
              && (Disagrees(entry.identity, stream) <==> entry.stream != stream || entry.identity in started)
              && (TooEarly(entry.identity) <==> !EnterReady(observations, done, entry.entered))
    {
      var entry := observations[index];
      assert entry.identity in Identities(observations);
      assert forall i :: 0 <= i < |observations| && observations[i].identity == entry.identity ==> i == index;
      if !EnterReady(observations, done, entry.entered) {
        var j :| 0 <= j < |observations| && observations[j].exited.Some? && observations[j].exited.value < entry.entered
                 && observations[j].identity !in done;
        assert TooEarly(entry.identity);
      }
    }

    /** One attempt of a caller to enter an operation: on arrival, or again after a wait. It fails the run exactly when it
      * disagrees with the log, and waits exactly when it is too early; once the run has failed, nobody waits.
      */
    method TryEnter(identity: Identity, stream: bool, arriving: bool) returns (step: Step)
      requires Valid()
      modifies this
      ensures Valid()
      ensures step == Mismatch <==>
                old((arriving && failed) || Disagrees(identity, stream) || (TooEarly(identity) && failed))
      ensures step == Waits <==> old(!failed && !Disagrees(identity, stream) && TooEarly(identity))
      ensures step.Entered? <==>
                old(!(arriving && failed) && !Disagrees(identity, stream) && !TooEarly(identity))
      ensures failed == (old(failed) || step == Mismatch)
      ensures !step.Entered? ==> observations == old(observations) && log == old(log) && disk == old(disk)
      ensures step.Entered? ==>
                && |log| == |old(log)| + 1 && log[..|old(log)|] == old(log)
                && (var b := log[|log| - 1];
                    b.Enter? && b.index < |observations| && observations[b.index].identity == identity
                    && (step.replay <==> observations[b.index].exited.Some?)
                    && (identity !in old(Identities(observations)) ==>
                          record && !finished && observations == old(observations) + [observations[b.index]]))
    {
      hide Loadable, Ticks, FirstTicks, InOrder, ExitReady, OwnTicks, MustPrecede, OrderKept, EnterReady, Disagrees, TooEarly;
      hide ExtendsLoaded, ExitsDone, LogsFired;
      DistinctOf(Execution(observations, finished, output));
      var found := Find(observations, identity);
      AskedFor(identity, stream, found);
      if arriving && failed {
        return Mismatch;
      }
      if found.None? {
        if !record || finished {
          step := Fail();
          return;
        }
        if !(saved <= done) {
          return if failed then Mismatch else Waits;
        }
        Open(Observation(identity, stream, tick, None, None));
        return Entered(false);
      }
      var entry := observations[found.value];
      if entry.stream != stream || identity in started {
        step := Fail();
        return;
      }
      if !EnterReady(observations, done, entry.entered) {
        return if failed then Mismatch else Waits;
      }
      Begin(found.value);
      return Entered(entry.exited.Some?);
    }

    lemma AskedFor(identity: Identity, stream: bool, found: Option<nat>)
      requires DistinctIdentities(observations) && found == Find(observations, identity)
      ensures found.None? ==> (Disagrees(identity, stream) <==> !record || finished) && (TooEarly(identity) <==> !(saved <= done))
      ensures found.Some? ==>
                var entry := observations[found.value];
                && (Disagrees(identity, stream) <==> entry.stream != stream || identity in started)
                && (TooEarly(identity) <==> !EnterReady(observations, done, entry.entered))
    {
      if found.Some? { AtIndex(found.value, stream); }
    }

    /** Enters a logged operation whose wait is over. */
    method Begin(index: nat)
      requires Valid() && index < |observations| && observations[index].identity !in started
      requires EnterReady(observations, done, observations[index].entered)
      modifies this`started, this`log
      ensures Valid() && log == old(log) + [Enter(index)]
    {
      hide Loadable, Ticks, OrderKept, ExtendsLoaded, ExitsDone, EnterReady;
      ReadyToFire(Enter(index));
      FiringKeepsOrder(observations, loaded, log, Enter(index));
      FiredState(loaded, observations, saved, started, done, log, Enter(index));
      hide LogsFired, DistinctIdentities;
      assert observations[index].identity in Identities(observations);
      started := started + {observations[index].identity};
      log := log + [Enter(index)];
    }

    /** Everything that must precede a ready boundary has fired. */
    lemma ReadyToFire(b: Boundary)
      requires Valid() && Recorded(observations, b) && Ready(observations, started, done, b)
      ensures forall a :: MustPrecede(observations, a, b) ==> a in log
      ensures DistinctIdentities(observations)
    {
      hide Ticks, OrderKept, ExtendsLoaded, ExitsDone, DistinctIdentities;
      forall a | MustPrecede(observations, a, b) ensures a in log {
        assert Fired(observations, started, done, a);
      }
    }

    /** Logs and enters an operation that the log does not have. No logged exit is left to wait for. */
    method Open(entry: Observation)
      requires Valid() && saved <= done && !finished
      requires entry.identity !in Identities(observations) && entry.exited.None? && entry.entered == tick
      modifies this`observations, this`tick, this`disk, this`started, this`log
      ensures Valid() && observations == old(observations) + [entry]
      ensures log == old(log) + [Enter(|old(observations)|)]
    {
      hide Loadable, Ticks, OrderKept, ExtendsLoaded, ExitsDone, LogsFired, Identities, MustPrecede;
      ghost var n, before := |observations|, observations;
      AllFired();
      OpeningKeepsLoadable(Execution(observations, finished, output), entry);
      OpenedState(loaded, observations, saved, started, done, log, entry);
      OpeningKeepsOrder(before, loaded, log, entry);
      tick := tick + 1;
      observations := observations + [entry];
      Persist();
      started := started + {entry.identity};
      log := log + [Enter(n)];
    }

    /** Once everything loaded is done, every logged boundary has fired, and all ticks are past. */
    lemma AllFired()
      requires Valid() && saved <= done
      ensures forall a :: Recorded(observations, a) ==> TickOf(observations, a) < tick && a in log
      ensures forall b :: b in log ==> b.index < |observations|
    {
      hide Ticks, FirstTicks, DistinctIdentities, InOrder;
      forall a | Recorded(observations, a) ensures TickOf(observations, a) < tick && a in log {
        TicksAreBelow(Execution(observations, finished, output), a);
        assert a.index < |loaded| ==> observations[a.index].identity in Identities(loaded);
        assert Fired(observations, started, done, a);
      }
    }

    /** One attempt of a caller to leave the operation it entered. A logged exit waits for everything logged before
      * it; an exit that the log does not have is logged at once, in order if and only if the run has caught up.
      */
    method TryExit(index: nat, outcome: string) returns (step: Step)
      requires Valid() && index < |observations|
      requires observations[index].identity in started && observations[index].identity !in done
      modifies this
      ensures Valid()
      ensures !step.Entered? && failed == (old(failed) || step == Mismatch)
      ensures log == if step == Exited then old(log) + [Exit(index)] else old(log)
      ensures old(observations)[index].exited.Some? ==>
                var agrees := old(observations)[index].outcome == Some(outcome);
                var ready := old(ExitReady(observations, started, done, observations[index].exited.value));
                && observations == old(observations) && disk == old(disk)
                && (step == Exited <==> agrees && ready)
                && (step == Waits <==> agrees && !ready && !old(failed))
                && (step == Mismatch <==> !agrees || (!ready && old(failed)))
      ensures old(observations)[index].exited.None? ==>
                && step == Exited && tick == old(tick) + 1
                && observations == old(observations)[index := old(observations)[index]
                                                      .(exited := Some(old(tick)), outcome := Some(outcome))]
                && (InOrder(observations, log, |log| - 1) <==> old(CaughtUp(observations, started, done)))
    {
      hide Loadable, Ticks, FirstTicks, InOrder, EnterReady, ExitReady, OwnTicks, MustPrecede, OrderKept;
      var entry := observations[index];
      if entry.exited.Some? {
        if entry.outcome != Some(outcome) {
          step := Fail();
          return;
        }
        if !ExitReady(observations, started, done, entry.exited.value) {
          return if failed then Mismatch else Waits;
        }
        ReplayExit(index);
      } else {
        LiveExit(index, outcome);
      }
      step := Exited;
    }

    method ReplayExit(index: nat)
      requires Valid() && index < |observations| && observations[index].exited.Some?
      requires observations[index].identity in started && observations[index].identity !in done
      requires ExitReady(observations, started, done, observations[index].exited.value)
      modifies this`done, this`log
      ensures Valid() && log == old(log) + [Exit(index)]
    {
      hide Loadable, Ticks, OrderKept, ExtendsLoaded, ExitsDone, ExitReady;
      ReadyToFire(Exit(index));
      FiringKeepsOrder(observations, loaded, log, Exit(index));
      FiredState(loaded, observations, saved, started, done, log, Exit(index));
      hide LogsFired, DistinctIdentities;
      done := done + {observations[index].identity};
      log := log + [Exit(index)];
    }

    method LiveExit(index: nat, outcome: string)
      requires Valid() && index < |observations| && observations[index].exited.None?
      requires observations[index].identity in started && observations[index].identity !in done
      modifies this`observations, this`tick, this`disk, this`done, this`log
      ensures Valid() && log == old(log) + [Exit(index)] && tick == old(tick) + 1
      ensures observations == old(observations)[index := old(observations)[index]
                                                 .(exited := Some(old(tick)), outcome := Some(outcome))]
      ensures InOrder(observations, log, |log| - 1) <==> old(CaughtUp(observations, started, done))
    {
      hide Loadable, Ticks, Fired, InOrder, MustPrecede, OrderKept, Identities, ExtendsLoaded, ExitsDone, LogsFired,
           CaughtUp;
      ghost var before, e := observations, Execution(observations, finished, output);
      var closed := observations[index].(exited := Some(tick), outcome := Some(outcome));
      ReadyToClose(index);
      DistinctOf(e);
      ClosingKeepsLoadable(e, index, closed);
      LiveExitOrder(e, loaded, started, done, log, index, closed);
      ClosedState(loaded, observations, saved, started, done, log, index, closed);
      hide DistinctIdentities;
      observations := observations[index := closed];
      tick := tick + 1;
      Persist();
      done := done + {closed.identity};
      log := log + [Exit(index)];
      SameIdentities(before, observations);
    }

    /** An operation of this run found every loaded exit done, so it leaves after everything in the log. */
    lemma ReadyToClose(index: nat)
      requires Valid() && index < |observations| && observations[index].exited.None?
      requires observations[index].identity in started && observations[index].identity !in done
      ensures Loadable(Execution(observations, finished, output)) && OrderKept(observations, loaded, log)
      ensures tick == |Ticks(observations)|
      ensures !Resumed(loaded, Exit(index)) ==> CaughtUp(observations, started, done)
    {
      hide Loadable, Ticks, OrderKept, DistinctIdentities;
      if !Resumed(loaded, Exit(index)) {
        forall i | 0 <= i < |observations|
          ensures observations[i].identity in started
          ensures observations[i].exited.Some? ==> observations[i].identity in done
        {
          assert i < |loaded| ==> observations[i].identity in Identities(loaded);
        }
      }
    }

    /** Counting those that are done tells whether all are. */
    lemma ConsumedIsComplete()
      requires Valid()
      ensures |done| == |observations| <==> Complete(observations, started, done)
    {
      hide Loadable, Ticks, ExtendsLoaded, ExitsDone, LogsFired, OrderKept;
      DistinctOf(Execution(observations, finished, output));
      IdentitiesCount(observations);
      if |done| == |observations| {
        SubsetOfSameSize(done, Identities(observations));
        assert forall i :: 0 <= i < |observations| ==> observations[i].identity in Identities(observations);
      }
      if Complete(observations, started, done) {
        assert done == Identities(observations);
      }
    }

    /** Ends the run. It is accepted exactly when nothing failed before, every operation of the log was entered and left,
      * and an execution that had finished before gives the same output again.
      */
    method Finish(result: Option<string>) returns (ok: bool)
      requires Valid()
      modifies this
      ensures Valid() && log == old(log)
      ensures ok <==> !old(failed) && Complete(observations, started, done) && (old(finished) ==> old(output) == result)
      ensures observations == old(observations) && started == old(started) && done == old(done)
      ensures failed == (old(failed) || !ok)
      ensures ok ==> finished && output == result
      ensures disk == if ok && persistent && !old(finished) then Execution(observations, true, result) else old(disk)
    {
      hide Loadable, Ticks, FirstTicks, InOrder, EnterReady, ExitReady, OwnTicks, MustPrecede, OrderKept;
      DistinctOf(Execution(observations, finished, output));
      IdentitiesCount(observations);
      ConsumedIsComplete();
      if failed || |done| != |observations| {
        failed := true;
        return false;
      }
      assert done == Identities(observations) by { SubsetOfSameSize(done, Identities(observations)); }
      assert forall i :: 0 <= i < |observations| ==> observations[i].identity in Identities(observations);
      if finished {
        if output != result {
          failed := true;
          return false;
        }
        return true;
      }
      FinishingKeepsLoadable(Execution(observations, finished, output), result);
      finished, output := true, result;
      Persist();
      ok := true;
    }
  }

  /** As long as the log has a boundary that has not fired, there is a caller that would not have to wait. */
  lemma SomebodyMayGoOn(s: Schedule) returns (b: Boundary)
    requires s.Valid() && exists u :: Recorded(s.observations, u) && !Fired(s.observations, s.started, s.done, u)
    ensures Recorded(s.observations, b)
    ensures b.Enter? ==>
              var entry := s.observations[b.index];
              !s.TooEarly(entry.identity) && !s.Disagrees(entry.identity, entry.stream)
    ensures b.Exit? ==>
              var entry := s.observations[b.index];
              && entry.identity in s.started && entry.identity !in s.done
              && ExitReady(s.observations, s.started, s.done, entry.exited.value)
  {
    var e := Execution(s.observations, s.finished, s.output);
    b := SmallestUnfiredIsReady(e, s.started, s.done);
    DistinctOf(e);
    hide Loadable, ExtendsLoaded, ExitsDone, LogsFired, OrderKept, EnterReady, ExitReady;
    s.AtIndex(b.index, s.observations[b.index].stream);
  }

  /** A run of a log that nothing was left open in: whenever a boundary fired, every boundary that carries an earlier
    * tick had fired before it, two entries apart.
    */
  lemma ReplayKeepsOrder(s: Schedule, place: nat, a: Boundary)
    requires s.Valid() && forall i :: 0 <= i < |s.loaded| ==> s.loaded[i].exited.Some?
    requires place < |s.log| && MustPrecede(s.observations, a, s.log[place])
    ensures a in s.log[..place]
  {
    hide Loadable, ExtendsLoaded, ExitsDone, LogsFired;
    assert !Resumed(s.loaded, s.log[place]);
    assert InOrder(s.observations, s.log, place);
  }
}
