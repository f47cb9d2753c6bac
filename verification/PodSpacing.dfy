/** Authorisations are spaced over every run of the gateway, whether or not their create was sent. */
module PodSpacing {
  import opened Wrappers
  import opened AdmissionQueue
  import opened PodAllocation

  /** The journal's clock stands, or moves by the interval at least. */
  predicate Spaces(interval: real, was: Option<int>, now: Option<int>) {
    now != was ==> now.Some? && (was.Some? ==> (now.value - was.value) as real >= interval)
  }

  /** A write still in flight that can land keeps the spacing too. */
  ghost predicate WritesSpaced(l: Limits, s: Gateway) {
    forall w :: w in s.flying ==>
      w.expected <= s.version
      && (w.expected == s.version ==> Spaces(l.interval, s.journal.lastCreateAt, w.data.lastCreateAt))
  }

  lemma SaveIsSpaced(l: Limits, s: Gateway, next: QueueState, save: Save)
    requires WritesSpaced(l, s) && Spaces(l.interval, s.journal.lastCreateAt, next.lastCreateAt)
    ensures WritesSpaced(l, AfterSave(s, next, save))
    ensures Spaces(l.interval, s.journal.lastCreateAt, AfterSave(s, next, save).journal.lastCreateAt)
  {
  }

  lemma AuthorizationIsSpaced(q: QueueState, create: Create, interval: real, now: real)
    requires interval > 0.0 && AuthorizeChange(q, create.scope, create.startId, interval, now).Success?
    ensures Spaces(interval, q.lastCreateAt,
                   AuthorizeChange(q, create.scope, create.startId, interval, now).value.lastCreateAt)
  {
  }

  /** Only authorising moves the clock. */
  lemma ChangesKeepClock(q: QueueState, scope: Scope, startId: StartId, capacity: nat, now: real)
    ensures forall predecessor {:trigger EnqueueChange(q, scope, startId, predecessor, capacity, now)} ::
              EnqueueChange(q, scope, startId, predecessor, capacity, now).Success? ==>
                EnqueueChange(q, scope, startId, predecessor, capacity, now).value.0.lastCreateAt == q.lastCreateAt
    ensures forall best {:trigger ReleaseChange(q, scope, startId, best)} ::
              ReleaseChange(q, scope, startId, best).Success? ==>
                ReleaseChange(q, scope, startId, best).value.lastCreateAt == q.lastCreateAt
    ensures forall rejected :: CompleteChange(q, scope, startId, rejected).lastCreateAt == q.lastCreateAt
    ensures CancelChange(q, scope, startId).0.lastCreateAt == q.lastCreateAt
  {
  }

  lemma RolloverKeepsClock(q: QueueState, round: nat, now: real)
    requires RolloverChange(q, round, now).Success?
    ensures RolloverChange(q, round, now).value.lastCreateAt == q.lastCreateAt
  {
  }

  lemma JournalStepKeepsClock(l: Limits, s: Gateway, step: Step) returns (next: QueueState, save: Save)
    requires Enabled(l, s, step)
    requires step.Enqueue? || step.Cancel? || step.Complete? || step.Rollover? || step.Release?
    ensures next.lastCreateAt == s.journal.lastCreateAt
    ensures var t, u := Apply(l, s, step), AfterSave(s, next, save);
            t.journal == u.journal && t.version == u.version && t.flying == u.flying
  {
    hide HasCapacity, Undispatched, Displaced, ReleaseChoice;
    var q := Loaded(s.journal);
    assert q.lastCreateAt == s.journal.lastCreateAt;
    hide Loaded, EnqueueChange, ReleaseChange, CompleteChange, CancelChange, RolloverChange, AuthorizeChange;
    save := step.save;
    if step.Rollover? {
      RolloverKeepsClock(q, s.inputs, s.now);
      next := RolloverChange(q, s.inputs, s.now).value;
    } else {
      ChangesKeepClock(q, step.scope, step.startId, l.capacity, s.now);
      match step
      case Enqueue(scope, startId, predecessor, _) =>
        next := EnqueueChange(q, scope, startId, predecessor, l.capacity, s.now).value.0;
      case Cancel(scope, startId, _) => next := CancelChange(q, scope, startId).0;
      case Complete(scope, startId, rejected, _) => next := CompleteChange(q, scope, startId, rejected);
      case Release(scope, startId, best, _) => next := ReleaseChange(q, scope, startId, best).value;
    }
  }

  lemma StepIsSpaced(l: Limits, s: Gateway, step: Step)
    requires l.interval > 0.0 && WritesSpaced(l, s) && Enabled(l, s, step)
    ensures WritesSpaced(l, Apply(l, s, step))
    ensures Spaces(l.interval, s.journal.lastCreateAt, Apply(l, s, step).journal.lastCreateAt)
  {
    if step.Authorize? {
      var q, create := Loaded(s.journal), s.worker.create;
      assert q.lastCreateAt == s.journal.lastCreateAt;
      hide Loaded, AuthorizeChange;
      var change := AuthorizeChange(q, create.scope, create.startId, l.interval, s.now);
      if change.Success? {
        AuthorizationIsSpaced(q, create, l.interval, s.now);
        SaveIsSpaced(l, s, change.value, step.save);
      }
    } else if step.Enqueue? || step.Cancel? || step.Complete? || step.Rollover? || step.Release? {
      hide Enabled, Apply;
      var next, save := JournalStepKeepsClock(l, s, step);
      SaveIsSpaced(l, s, next, save);
    }
  }

  /** The times of the authorisations that reached the journal, in the order in which they did. */
  function Authorisations(states: seq<Gateway>): seq<int> {
    if |states| < 2 then []
    else
      var was, last := states[|states| - 2].journal.lastCreateAt, states[|states| - 1].journal.lastCreateAt;
      Authorisations(states[..|states| - 1]) + if last != was && last.Some? then [last.value] else []
  }

  lemma {:induction false} LastAuthorisation(l: Limits, states: seq<Gateway>)
    requires l.interval > 0.0 && |states| > 0 && IsRun(l, states)
    ensures WritesSpaced(l, states[|states| - 1])
    ensures var times := Authorisations(states);
            states[|states| - 1].journal.lastCreateAt == if times == [] then None else Some(times[|times| - 1])
    ensures forall k :: 0 < k < |Authorisations(states)| ==>
              (Authorisations(states)[k] - Authorisations(states)[k - 1]) as real >= l.interval
  {
    hide Enabled, Apply, WritesSpaced;
    var n := |states| - 1;
    if n == 0 {
      StartIsSpaced(l, states[0]);
    } else {
      LastAuthorisation(l, states[..n]);
      assert Follows(l, states[n - 1], states[n]);
      var step :| Enabled(l, states[n - 1], step) && states[n] == Apply(l, states[n - 1], step);
      StepIsSpaced(l, states[n - 1], step);
      assert states[..n][n - 1] == states[n - 1];
    }
  }

  lemma StartIsSpaced(l: Limits, s: Gateway)
    requires IsStart(s)
    ensures WritesSpaced(l, s)
  {
  }

  /** Over every run, with its crashes and late writes, the i-th and the j-th authorisation to reach the journal are at
    * least j - i intervals apart: those fenced off, unconfirmed or released among them.
    */
  lemma {:induction false} AuthorisationsAreSpaced(l: Limits, states: seq<Gateway>, i: nat, j: nat)
    requires l.interval > 0.0 && |states| > 0 && IsRun(l, states)
    requires i <= j < |Authorisations(states)|
    ensures (Authorisations(states)[j] - Authorisations(states)[i]) as real >= (j - i) as real * l.interval
    decreases j - i
  {
    hide Authorisations, IsRun, WritesSpaced;
    if i < j {
      AuthorisationsAreSpaced(l, states, i, j - 1);
      LastAuthorisation(l, states);
      assert (j - i) as real * l.interval == (j - 1 - i) as real * l.interval + l.interval;
    }
  }
}
