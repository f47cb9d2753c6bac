/** The pool of validation workers: what its event handlers keep true of workers, requests and waiting callers. */
module ValidationPool {
  import opened Wrappers

  /** Workers and calls are named by their identity. */
  type Worker = nat
  type Call = nat

  datatype Outcome = Validated | TimedOut | HeapExceeded | Unavailable

  predicate NoDuplicates<T(==)>(s: seq<T>) {
    forall i, j :: 0 <= i < j < |s| ==> s[i] != s[j]
  }

  function Without<T(==, !new)>(s: seq<T>, x: T): (r: seq<T>)
    ensures forall y :: y in r <==> y in s && y != x
    ensures NoDuplicates(s) ==> NoDuplicates(r)
    ensures x !in s ==> r == s
  {
    if s == [] then []
    else
      var rest := Without(s[..|s| - 1], x);
      assert NoDuplicates(s) ==> s[|s| - 1] !in rest;
      if s[|s| - 1] == x then rest else rest + [s[|s| - 1]]
  }

  /** What a worker was given and lost again leaves the other requests as they were. */
  lemma GivenAndLost(before: map<Call, Worker>, after: map<Call, Worker>, call: Call, w: Worker)
    requires call !in before && w !in before.Values
    requires forall c :: c in after <==> c in before[call := w] && before[call := w][c] != w
    requires forall c :: c in after ==> after[c] == before[call := w][c]
    ensures after == before
  {
    forall c | c in before ensures c in after && after[c] == before[c] {
      assert before[c] in before.Values;
    }
  }

  class ValidationPool {
    var workers: seq<Worker>
    var available: seq<Worker>
    var waiting: seq<Call>
    var replacing: nat
    var shuttingDown: bool
    var failed: set<Worker>

    /** The worker that each pending request was posted to. */
    var pending: map<Call, Worker>

    /** Names the calls. */
    var calls: nat

    /** How calls were settled, the workers that run, and all workers there ever were. */
    ghost var settled: map<Call, Outcome>
    var live: set<Worker>
    var known: set<Worker>

    /** Workers in the pool that have not failed run; available ones are idle. */
    ghost predicate WorkersValid()
      reads this`workers, this`available, this`shuttingDown, this`failed, this`live, this`known, this`pending
    {
      && NoDuplicates(workers) && NoDuplicates(available)
      && (forall w :: w in available ==> w in workers && w !in failed && w !in pending.Values)
      && (forall w :: w in workers ==> w in known && (w !in live ==> w in failed && shuttingDown))
      && live <= known && failed <= known
    }

    /** A worker has at most one request, and a failed one has none. */
    ghost predicate RequestsValid()
      reads this`pending, this`failed, this`live
    {
      && (forall c :: c in pending ==> pending[c] in live && pending[c] !in failed)
      && (forall c, d :: c in pending && d in pending && pending[c] == pending[d] ==> c == d)
    }

    /** While the pool is up, workers with a request belong to it. */
    ghost predicate RequestsOwned()
      reads this`pending, this`workers, this`shuttingDown
    {
      !shuttingDown ==> forall c :: c in pending ==> pending[c] in workers
    }

    /** Every call is in exactly one place: waiting, pending, or settled once. */
    ghost predicate CallsValid()
      reads this`calls, this`waiting, this`pending, this`settled
    {
      && NoDuplicates(waiting)
      && (forall c :: c in waiting ==> c !in pending && c !in settled)
      && pending.Keys !! settled.Keys
      && (forall c: Call :: c < calls <==> c in waiting || c in pending || c in settled)
    }

    /** Calls wait only while nothing is available, and while a worker runs, is about to exit, or is being replaced. */
    ghost predicate WaitersValid()
      reads this`waiting, this`available, this`workers, this`replacing, this`shuttingDown
    {
      waiting != [] ==> available == [] && !shuttingDown && (workers != [] || replacing > 0)
    }

    ghost predicate Valid()
      reads this
    {
      WorkersValid() && RequestsValid() && RequestsOwned() && CallsValid() && WaitersValid()
    }

    constructor (size: nat)
      ensures Valid() && |workers| == size && available == workers && waiting == [] && calls == 0 && !shuttingDown
    {
      var ids := seq(size, i => i);
      workers, available := ids, ids;
      waiting, replacing, shuttingDown, failed, pending, calls := [], 0, false, {}, map[], 0;
      settled, live, known := map[], set w | w in ids, set w | w in ids;
    }

    /** A request leaves its worker, once. */
    method Settle(call: Call, outcome: Outcome)
      requires Valid() && call in pending
      modifies this`pending, this`settled
      ensures Valid() && pending == old(pending) - {call} && settled == old(settled)[call := outcome]
    {
      hide NoDuplicates;
      pending := pending - {call};
      settled := settled[call := outcome];
    }

    /** All requests of a worker are settled in the same way. */
    method SettleAll(w: Worker, outcome: Outcome)
      requires Valid()
      modifies this`pending, this`settled
      ensures Valid()
      ensures forall c :: c in pending <==> c in old(pending) && old(pending)[c] != w
      ensures forall c :: c in pending ==> pending[c] == old(pending)[c]
      ensures forall c :: c in settled <==> c in old(settled) || (c in old(pending) && old(pending)[c] == w)
      ensures forall c :: c in settled ==> settled[c] == if c in old(settled) then old(settled)[c] else outcome
    {
      hide NoDuplicates, WorkersValid, RequestsValid, RequestsOwned, WaitersValid;
      var requests := set c | c in pending && pending[c] == w;
      while requests != {}
        invariant Valid() && requests == set c | c in pending && pending[c] == w
        invariant forall c :: c in pending <==> c in old(pending) && (old(pending)[c] != w || c in requests)
        invariant forall c :: c in pending ==> pending[c] == old(pending)[c]
        invariant forall c :: c in settled <==> c in old(settled) || (c in old(pending) && c !in pending)
        invariant forall c :: c in settled ==> settled[c] == if c in old(settled) then old(settled)[c] else outcome
        decreases requests
      {
        var c :| c in requests;
        Settle(c, outcome);
        requests := requests - {c};
      }
    }

    /** A worker is not used again, and what it was working on is settled. */
    method Retire(w: Worker, outcome: Outcome)
      requires Valid() && w in known
      modifies this`failed, this`available, this`pending, this`settled
      ensures Valid() && failed == old(failed) + {w} && available == Without(old(available), w)
      ensures forall c :: c in pending <==> c in old(pending) && old(pending)[c] != w
      ensures forall c :: c in pending ==> pending[c] == old(pending)[c]
      ensures forall c :: c in settled <==> c in old(settled) || (c in old(pending) && old(pending)[c] == w)
      ensures forall c :: c in settled ==> settled[c] == if c in old(settled) then old(settled)[c] else outcome
    {
      hide NoDuplicates;
      available := Without(available, w);
      assert Valid();
      SettleAll(w, outcome);
      failed := failed + {w};
    }

    /** The worker can take a request: it runs in the pool, is idle, and nobody else can get it. */
    ghost predicate Free(w: Worker)
      reads this`workers, this`available, this`failed, this`live, this`pending
    {
      w in workers && w !in available && w !in failed && w in live && w !in pending.Values
    }

    /** A request has been posted to a worker, unless that raised. */
    method Posted(w: Worker, fails: bool)
      requires Valid() && w in known
      modifies this`failed, this`available, this`pending, this`settled
      ensures Valid() && (fails ==> w in failed)
      ensures !fails ==> unchanged(this)
      ensures fails ==> available == Without(old(available), w) && failed == old(failed) + {w}
      ensures forall c :: c in pending <==> c in old(pending) && !(fails && old(pending)[c] == w)
      ensures forall c :: c in pending ==> pending[c] == old(pending)[c]
      ensures forall c :: c in settled <==> c in old(settled) || (fails && c in old(pending) && old(pending)[c] == w)
      ensures forall c :: c in settled ==> settled[c] == if c in old(settled) then old(settled)[c] else Unavailable
    {
      if fails {
        Retire(w, Unavailable);
      }
    }

    /** The oldest waiting call has been posted to the worker, or been refused when posting raised; nothing else happened to
      * any other call.
      */
    twostate predicate Granted(w: Worker, fails: bool)
      requires old(waiting) != []
      reads this
    {
      && waiting == old(waiting)[1..] && available == old(available)
      && pending == (if fails then old(pending) else old(pending)[old(waiting)[0] := w])
      && settled == (if fails then old(settled)[old(waiting)[0] := Unavailable] else old(settled))
      && failed == old(failed) + if fails then {w} else {}
    }

    /** The oldest waiting call gets the worker. */
    method Grant(w: Worker, fails: bool)
      requires Valid() && Free(w) && waiting != []
      modifies this`waiting, this`failed, this`available, this`pending, this`settled
      ensures Valid() && Granted(w, fails)
    {
      hide WorkersValid, RequestsValid, RequestsOwned, CallsValid, WaitersValid, NoDuplicates;
      ghost var before := pending;
      var next := waiting[0];
      Take(w);
      Posted(w, fails);
      if fails {
        GivenAndLost(before, pending, next, w);
        assert settled == old(settled)[next := Unavailable];
      } else {
        assert pending == old(pending)[next := w];
      }
    }

    /** The oldest waiting call becomes the worker's request. */
    method Take(w: Worker)
      requires Valid() && Free(w) && waiting != []
      modifies this`waiting, this`pending
      ensures Valid() && waiting == old(waiting)[1..] && pending == old(pending)[old(waiting)[0] := w]
      ensures w in known && old(waiting)[0] !in old(pending) && old(waiting)[0] !in settled
    {
      var next := waiting[0];
      waiting, pending := waiting[1..], pending[next := w];
      assert waiting == old(waiting)[1..];
      assert CallsValid() by {
        assert forall c :: c in old(waiting) <==> c in waiting || c == next;
      }
      assert RequestsValid() && WorkersValid();
    }

    /** What becomes of a worker that is done. */
    twostate predicate Released(w: Worker, fails: bool)
      reads this
    {
      if old(w in failed || w !in workers) then unchanged(`waiting, `available, `pending, `settled, `failed)
      else if old(waiting) == [] then
        available == old(available) + [w] && unchanged(`waiting, `pending, `settled, `failed)
      else Granted(w, fails)
    }

    /** A worker that is done goes to the oldest waiting call, or becomes available; a retired one does not. */
    method Release(w: Worker, fails: bool)
      requires Valid() && w in live && w !in available && w !in pending.Values
      modifies this`waiting, this`failed, this`available, this`pending, this`settled
      ensures Valid()
      ensures Released(w, fails)
    {
      if w in failed || w !in workers {
        return;
      }
      if |waiting| > 0 {
        Grant(w, fails);
      } else {
        available := available + [w];
        assert Valid();
      }
    }

    predicate SomeWorkerRuns()
      reads this`workers, this`failed
    {
      exists w :: w in workers && w !in failed
    }

    /** A validation is refused, or posted to the worker that has been idle longest, or waits. */
    method Validate(fails: bool) returns (call: Call)
      requires Valid()
      modifies this
      ensures Valid() && call == old(calls) && calls == call + 1
      ensures forall c :: c in old(settled) ==> c in settled && settled[c] == old(settled)[c]
      ensures call in settled <==>
                || old(shuttingDown)
                || ((forall w :: w in old(workers) ==> w in old(failed)) && old(replacing) == 0)
                || (fails && old(available) != [])
      ensures call in settled ==> settled[call] == Unavailable
      ensures forall c :: c in old(pending) ==> c in pending && pending[c] == old(pending)[c]
      ensures call in waiting <==> (
                && !old(shuttingDown) && old(available) == []
                && ((exists w :: w in old(workers) && w !in old(failed)) || old(replacing) > 0))
      ensures call in waiting ==> waiting == old(waiting) + [call]
      ensures call in pending ==> old(available) == [pending[call]] + available
    {
      hide NoDuplicates, WorkersValid, RequestsValid, RequestsOwned;
      call := calls;
      if shuttingDown || (!SomeWorkerRuns() && replacing == 0) {
        calls, settled := calls + 1, settled[call := Unavailable];
        assert Valid();
        return;
      }
      if |available| > 0 {
        Dispatch(call, fails);
        return;
      }
      Wait(call);
    }

    /** A call is posted to the worker that has been idle longest. */
    method Dispatch(call: Call, fails: bool)
      requires Valid() && call == calls && available != []
      modifies this`calls, this`available, this`pending, this`settled, this`failed
      ensures Valid() && calls == call + 1 && available == old(available)[1..]
      ensures pending == if fails then old(pending) else old(pending)[call := old(available)[0]]
      ensures settled == if fails then old(settled)[call := Unavailable] else old(settled)
    {
      hide WorkersValid, RequestsValid, RequestsOwned, CallsValid, WaitersValid, NoDuplicates;
      ghost var before := pending;
      var w := available[0];
      Occupy(call, w);
      Posted(w, fails);
      if fails { GivenAndLost(before, pending, call, w); }
    }

    method Occupy(call: Call, w: Worker)
      requires Valid() && call == calls && available != [] && w == available[0]
      modifies this`calls, this`available, this`pending
      ensures Valid() && calls == call + 1 && available == old(available)[1..] && pending == old(pending)[call := w]
      ensures w in known && w !in available && w !in old(pending).Values && call !in old(pending) && call !in settled
    {
      assert available == [w] + available[1..];
      calls, available, pending := calls + 1, available[1..], pending[call := w];
      assert WorkersValid();
    }

    method Wait(call: Call)
      requires Valid() && call == calls && available == [] && !shuttingDown && (SomeWorkerRuns() || replacing > 0)
      modifies this`calls, this`waiting
      ensures Valid() && calls == call + 1 && waiting == old(waiting) + [call] && call !in old(waiting)
    {
      hide WorkersValid, RequestsValid, RequestsOwned;
      assert call !in waiting;
      assert forall c :: c in waiting + [call] <==> c in waiting || c == call;
      calls, waiting := calls + 1, waiting + [call];
    }

    /** A worker reports a result. Only the request that it still has is settled; then the worker serves the oldest waiting
      * call or becomes available.
      */
    method OnResult(w: Worker, call: Call, fails: bool)
      requires Valid() && w in live
      modifies this
      ensures Valid() && calls == old(calls)
      ensures old(call !in pending || pending[call] != w) ==> unchanged(this)
      ensures old(call in pending && pending[call] == w) ==>
                var served, left := old(w in workers && waiting != []), old(pending) - {call};
                && waiting == (if served then old(waiting)[1..] else old(waiting))
                && pending == (if served && !fails then left[old(waiting)[0] := w] else left)
                && settled == (if served && fails then old(settled)[call := Validated][old(waiting)[0] := Unavailable]
                               else old(settled)[call := Validated])
                && available == old(available) + if old(w in workers && waiting == []) then [w] else []
      ensures forall c :: c in old(settled) ==> c in settled && settled[c] == old(settled)[c]
    {
      if call in pending && pending[call] == w {
        assert w !in available && forall c :: c in pending && c != call ==> pending[c] != w;
        Settle(call, Validated);
        Release(w, fails);
      }
    }

    /** The time of a request is up. Its worker is terminated and does not become available again. */
    method OnTimeout(call: Call)
      requires Valid()
      modifies this`pending, this`settled
      ensures Valid()
      ensures if old(call in pending) then settled == old(settled)[call := TimedOut] && pending == old(pending) - {call}
              else unchanged(this)
    {
      if call in pending {
        Settle(call, TimedOut);
      }
    }

    /** A worker raised an error; running out of memory is the program's fault. */
    method OnError(w: Worker, outOfMemory: bool)
      requires Valid() && w in live
      modifies this`failed, this`available, this`pending, this`settled
      ensures Valid() && w in failed
      ensures forall c :: c in old(pending) && old(pending)[c] == w ==>
                c in settled && settled[c] == if outOfMemory then HeapExceeded else Unavailable
      ensures available == Without(old(available), w)
      ensures forall c :: c in pending <==> c in old(pending) && old(pending)[c] != w
      ensures forall c :: c in pending ==> pending[c] == old(pending)[c]
      ensures forall c :: c in old(settled) ==> c in settled && settled[c] == old(settled)[c]
    {
      Retire(w, if outOfMemory then HeapExceeded else Unavailable);
    }

    /** A worker has exited: it is retired and, unless the pool shuts down, its replacement begins. */
    method OnExit(w: Worker)
      requires Valid() && w in live
      modifies this
      ensures Valid() && live == old(live) - {w} && w in failed && calls == old(calls) && waiting == old(waiting)
      ensures available == Without(old(available), w)
      ensures forall c :: c in pending <==> c in old(pending) && old(pending)[c] != w
      ensures forall c :: c in pending ==> pending[c] == old(pending)[c]
      ensures forall c :: c in old(pending) && old(pending)[c] == w ==> c in settled && settled[c] == Unavailable
      ensures forall c :: c in old(settled) ==> c in settled && settled[c] == old(settled)[c]
      ensures old(w in workers && !shuttingDown) ==> workers == Without(old(workers), w) && replacing == old(replacing) + 1
      ensures !old(w in workers && !shuttingDown) ==> workers == old(workers) && replacing == old(replacing)
    {
      Retire(w, Unavailable);
      if !shuttingDown && w in workers {
        workers, replacing := Without(workers, w), replacing + 1;
        live := live - {w};
        assert WorkersValid();
      } else {
        live := live - {w};
        assert WorkersValid();
      }
    }

    /** Every waiting call is refused. */
    method RefuseWaiting()
      requires Valid()
      modifies this`waiting, this`settled
      ensures Valid() && waiting == []
      ensures forall c :: c in settled <==> c in old(settled) || c in old(waiting)
      ensures forall c :: c in settled ==> settled[c] == if c in old(settled) then old(settled)[c] else Unavailable
    {
      hide WorkersValid, RequestsValid, RequestsOwned;
      while |waiting| > 0
        invariant Valid()
        invariant forall c :: (c in settled || c in waiting) <==> (c in old(settled) || c in old(waiting))
        invariant forall c :: c in old(settled) ==> c in settled
        invariant forall c :: c in settled ==> settled[c] == if c in old(settled) then old(settled)[c] else Unavailable
        decreases |waiting|
      {
        RefuseNext();
      }
    }

    method RefuseNext()
      requires Valid() && waiting != []
      modifies this`waiting, this`settled
      ensures Valid() && waiting == old(waiting)[1..] && settled == old(settled)[old(waiting)[0] := Unavailable]
      ensures old(waiting)[0] !in old(settled) && forall c :: c in old(waiting) <==> c in waiting || c == old(waiting)[0]
    {
      var next := waiting[0];
      waiting, settled := waiting[1..], settled[next := Unavailable];
      assert old(waiting) == [next] + waiting;
    }

    /** The replacement of a worker has ended. When it failed and nothing else can come, no call is left waiting. */
    method OnReplaced(added: Option<Worker>, fails: bool)
      requires Valid() && replacing > 0 && (added.Some? ==> added.value !in known)
      modifies this
      ensures Valid() && replacing == old(replacing) - 1 && calls == old(calls)
      ensures forall c :: c in old(settled) ==> c in settled && settled[c] == old(settled)[c]
      ensures added.Some? && !shuttingDown ==>
                && workers == old(workers) + [added.value]
                && if old(waiting) == [] then
                     available == old(available) + [added.value] && unchanged(`waiting, `pending, `settled)
                   else
                     && waiting == old(waiting)[1..] && available == old(available)
                     && pending == (if fails then old(pending) else old(pending)[old(waiting)[0] := added.value])
                     && settled == if fails then old(settled)[old(waiting)[0] := Unavailable] else old(settled)
      ensures added.None? || shuttingDown ==>
                && unchanged(`workers, `available, `pending)
                && if replacing == 0 && !SomeWorkerRuns() then
                     waiting == [] && forall c :: c in old(waiting) ==> c in settled && settled[c] == Unavailable
                   else unchanged(`waiting, `settled)
    {
      if added.Some? {
        known := known + {added.value};
        live := live + {added.value};
        assert Valid();
      }
      if added.Some? && !shuttingDown {
        Join(added.value);
        replacing := replacing - 1;
        assert Valid();
        if |waiting| > 0 {
          Grant(added.value, fails);
        } else {
          available := available + [added.value];
          assert Valid();
        }
        return;
      }
      if replacing == 1 && !SomeWorkerRuns() {
        RefuseWaiting();
      }
      replacing := replacing - 1;
    }

    method Join(w: Worker)
      requires Valid() && !shuttingDown && w in live && w !in workers && w !in failed && w !in pending.Values
      modifies this`workers
      ensures Valid() && workers == old(workers) + [w] && Free(w)
    {
      hide RequestsValid, CallsValid;
      workers := workers + [w];
    }

    /** No call is accepted from now on, and none is left waiting; then the workers are dropped. */
    method Shutdown()
      requires Valid()
      modifies this`shuttingDown, this`waiting, this`settled
      ensures Valid() && shuttingDown && waiting == []
      ensures forall c :: c in old(waiting) ==> c in settled && settled[c] == Unavailable
      ensures forall c :: c in old(settled) ==> c in settled && settled[c] == old(settled)[c]
    {
      RefuseWaiting();
      shuttingDown := true;
    }

    method ShutdownEnds()
      requires Valid() && shuttingDown
      modifies this`workers, this`available, this`waiting
      ensures Valid() && workers == [] && available == [] && waiting == []
    {
      workers, available, waiting := [], [], [];
    }

    /** While a call waits, the next exit or the next end of a replacement is still to come, or a worker runs. */
    lemma WaitersHaveHope()
      requires Valid() && waiting != []
      ensures SomeWorkerRuns() || replacing > 0 || exists w :: w in workers && w in live && w in failed
      ensures forall w :: w in workers && w !in failed ==> w in live && w !in available
    {
      if workers != [] { assert workers[0] in workers; }
    }
  }

  datatype Event =
    | Validate(fails: bool) | Result(worker: Worker, call: Call, fails: bool) | Timeout(call: Call)
    | Error(worker: Worker, outOfMemory: bool) | Exit(worker: Worker)
    | Replaced(added: Option<Worker>, fails: bool) | Shutdown | ShutdownEnds

  /** One event, if it can happen. */
  method Handle(pool: ValidationPool, e: Event)
    requires pool.Valid()
    modifies pool
    ensures pool.Valid()
    ensures forall c :: c in old(pool.settled) ==> c in pool.settled && pool.settled[c] == old(pool.settled)[c]
  {
    match e
    case Validate(fails) => var call := pool.Validate(fails);
    case Result(w, call, fails) =>
      if w in pool.live { pool.OnResult(w, call, fails); }
    case Timeout(call) => pool.OnTimeout(call);
    case Error(w, outOfMemory) =>
      if w in pool.live { pool.OnError(w, outOfMemory); }
    case Exit(w) =>
      if w in pool.live { pool.OnExit(w); }
    case Replaced(added, fails) =>
      if pool.replacing > 0 && (added.Some? ==> added.value !in pool.known) { pool.OnReplaced(added, fails); }
    case Shutdown => pool.Shutdown();
    case ShutdownEnds =>
      if pool.shuttingDown { pool.ShutdownEnds(); }
  }

  /** Every interleaving of calls, results, timeouts, errors, exits and replacements keeps the pool's promises. */
  method Run(size: nat, events: seq<Event>) returns (pool: ValidationPool)
    ensures fresh(pool) && pool.Valid()
    ensures forall c, d :: c in pool.pending && d in pool.pending && pool.pending[c] == pool.pending[d] ==> c == d
    ensures forall w :: w in pool.available ==> w in pool.live && w !in pool.failed && w !in pool.pending.Values
    ensures forall c: Call :: c < pool.calls <==> c in pool.waiting || c in pool.pending || c in pool.settled
    ensures pool.pending.Keys !! pool.settled.Keys && forall c :: c in pool.waiting ==> c !in pool.pending && c !in pool.settled
    ensures pool.waiting != [] ==>
              && pool.available == []
              && (pool.SomeWorkerRuns() || pool.replacing > 0 || exists w :: w in pool.workers && w in pool.live && w in pool.failed)
  {
    pool := new ValidationPool(size);
    for i := 0 to |events|
      invariant fresh(pool) && pool.Valid()
    {
      Handle(pool, events[i]);
    }
    if pool.waiting != [] { pool.WaitersHaveHope(); }
  }
}
