/** The pool of prover contexts: contexts are leased to one caller at a time, and more are built on demand. */
module ProverPool {
  import opened Wrappers

  /** Contexts and calls are named by their identity. */
  type Context = nat
  type Call = nat

  datatype Lease = Leased(context: Context) | Refused(error: string)

  predicate NoDuplicates<T(==)>(s: seq<T>) {
    forall i, j :: 0 <= i < j < |s| ==> s[i] != s[j]
  }

  function Elements<T(==)>(s: seq<T>): set<T> {
    set x | x in s
  }

  lemma {:induction false} ElementsCount<T>(s: seq<T>)
    requires NoDuplicates(s)
    ensures |Elements(s)| == |s|
  {
    if s != [] {
      var n := |s| - 1;
      ElementsCount(s[..n]);
      assert Elements(s) == Elements(s[..n]) + {s[n]};
    }
  }

  /** Calls are queued as they come, and exactly the first of them have been answered. */
  predicate ServedInOrder(queued: seq<Call>, served: nat, calls: nat, answered: set<Call>) {
    && (forall i, j :: 0 <= i < j < |queued| ==> queued[i] < queued[j])
    && (forall i :: 0 <= i < |queued| ==> queued[i] < calls)
    && (forall i :: 0 <= i < |queued| ==> (queued[i] in answered <==> i < served))
  }

  predicate OwnersAnswered(owner: map<Context, Call>, answers: map<Call, Lease>, calls: nat) {
    && (forall c :: c in owner ==> owner[c] in answers && answers[owner[c]] == Leased(c))
    && (forall c, d :: c in owner && d in owner && owner[c] == owner[d] ==> c == d)
    && (forall k :: k in answers ==> k < calls)
  }

  lemma LeasingKeepsOwners(owner: map<Context, Call>, answers: map<Call, Lease>, calls: nat, context: Context, call: Call)
    requires OwnersAnswered(owner, answers, calls) && context !in owner && call !in answers && call < calls
    ensures OwnersAnswered(owner[context := call], answers[call := Leased(context)], calls)
  {
    forall c | c in owner ensures owner[c] != call {
      assert owner[c] in answers;
    }
  }

  lemma LeaseCounts(owner: map<Context, Call>, context: Context, call: Call)
    requires context !in owner
    ensures |owner[context := call]| == |owner| + 1 && owner[context := call] != map[]
    ensures owner[context := call].Keys == owner.Keys + {context}
  {
    assert context in owner[context := call];
  }

  lemma QueuingKeepsOrder(queued: seq<Call>, served: nat, call: Call, answered: set<Call>)
    requires ServedInOrder(queued, served, call, answered) && served <= |queued| && call !in answered
    ensures ServedInOrder(queued + [call], served, call + 1, answered)
    ensures (queued + [call])[served..] == queued[served..] + [call]
  {
  }

  lemma ServingKeepsOrder(queued: seq<Call>, served: nat, calls: nat, answers: map<Call, Lease>, lease: Lease)
    requires ServedInOrder(queued, served, calls, answers.Keys) && served < |queued|
    ensures queued[served] !in answers && queued[served] < calls
    ensures ServedInOrder(queued, served + 1, calls, answers[queued[served] := lease].Keys)
    ensures queued[served..][0] == queued[served] && queued[served..][1..] == queued[served + 1..]
  {
  }

  class ProverPool {
    var available: seq<Context>
    var waiting: seq<Call>
    var count: nat
    const limit: nat
    var initializing: bool
    var initializeError: Option<string>

    /** Names the calls. */
    var calls: nat

    /** What calls were answered, and which call holds each leased context. */
    ghost var answers: map<Call, Lease>
    var owner: map<Context, Call>
    /** The calls that ever had to wait, in the order in which they came, and how many of those were answered. */
    ghost var queued: seq<Call>
    ghost var served: nat

    /** Every context there is has one owner or is available, and none more than the limit are built. */
    ghost predicate Conserved()
      reads this`available, this`owner, this`count, this`initializing
    {
      && NoDuplicates(available) && Elements(available) !! owner.Keys
      && |available| + |owner| == count <= limit
      && (initializing ==> count < limit)
    }

    /** A context is owned by the call that it was given to, and a call gets one context at most. */
    ghost predicate Owned()
      reads this`owner, this`answers, this`calls
    {
      OwnersAnswered(owner, answers, calls)
    }

    /** Waiting calls are served in the order of their arrival, and no call is answered twice. */
    ghost predicate InOrder()
      reads this`served, this`queued, this`waiting, this`calls, this`answers
    {
      served <= |queued| && waiting == queued[served..] && ServedInOrder(queued, served, calls, answers.Keys)
    }

    /** A call waits only while no context is available, and somebody is going to answer it. */
    ghost predicate WillBeAnswered()
      reads this`waiting, this`available, this`initializeError, this`count, this`initializing, this`owner
    {
      && (waiting != [] ==> available == [] && initializeError.None?)
      && (waiting != [] && count < limit ==> initializing)
      && (waiting != [] ==> owner != map[] || initializing)
    }

    ghost predicate Valid()
      reads this
    {
      count > 0 && Conserved() && Owned() && InOrder() && WillBeAnswered()
    }

    constructor (first: Context, limit: nat)
      requires limit >= 1
      ensures Valid() && this.limit == limit && available == [first] && queued == [] && answers == map[] && !initializing
    {
      available, waiting, count, this.limit := [first], [], 1, limit;
      initializing, initializeError := false, None;
      calls, answers, owner, queued, served := 0, map[], map[], [], 0;
    }

    /** Starts one initializer when calls wait and there is room; only one runs at a time. */
    method GrowIfNeeded()
      modifies this`initializing
      ensures initializing == (old(initializing) || (waiting != [] && count < limit))
    {
      if |waiting| > 0 && count < limit && !initializing {
        initializing := true;
      }
    }

    method Refuse(call: Call)
      requires Valid() && call == calls && initializeError.Some?
      modifies this`calls, this`answers
      ensures Valid() && calls == call + 1 && answers == old(answers)[call := Refused(initializeError.value)]
    {
      hide Conserved;
      calls := call + 1;
      answers := answers[call := Refused(initializeError.value)];
    }

    method TakeLast(call: Call) returns (context: Context)
      requires Valid() && call == calls && available != []
      modifies this`calls, this`answers, this`available, this`owner
      ensures Valid() && calls == call + 1 && answers == old(answers)[call := Leased(context)]
      ensures old(available) == available + [context] && owner == old(owner)[context := call]
    {
      calls := call + 1;
      context := available[|available| - 1];
      assert context in Elements(available) && context !in owner;
      available := available[..|available| - 1];
      owner := owner[context := call];
      answers := answers[call := Leased(context)];
      assert Conserved() by {
        assert Elements(available) <= Elements(old(available));
        assert context !in Elements(available);
      }
    }

    method Enqueue(call: Call)
      requires Valid() && call == calls && available == [] && initializeError.None?
      modifies this`calls, this`waiting, this`queued, this`initializing
      ensures Valid() && calls == call + 1 && queued == old(queued) + [call] && waiting == old(waiting) + [call]
      ensures initializing == (count < limit)
    {
      hide NoDuplicates, Elements, ServedInOrder;
      QueuingKeepsOrder(queued, served, call, answers.Keys);
      calls := call + 1;
      waiting := waiting + [call];
      queued := queued + [call];
      GrowIfNeeded();
    }

    /** A call takes the context released last, is refused, or waits. */
    method Acquire() returns (answer: Option<Lease>)
      requires Valid()
      modifies this
      ensures Valid() && calls == old(calls) + 1 && count == old(count) && initializeError == old(initializeError)
      ensures answer.Some? ==> answers == old(answers)[old(calls) := answer.value] && queued == old(queued)
      ensures answer.None? ==>
                && answers == old(answers) && queued == old(queued) + [old(calls)]
                && waiting == old(waiting) + [old(calls)] && initializing == (count < limit)
      ensures initializeError.Some? ==> answer == Some(Refused(initializeError.value))
      ensures initializeError.None? ==> (answer.None? <==> old(available) == [])
      ensures answer.Some? && answer.value.Leased? ==>
                && old(available) == available + [answer.value.context]
                && owner == old(owner)[answer.value.context := old(calls)]
    {
      hide Conserved, Owned, InOrder, WillBeAnswered;
      var call := calls;
      if initializeError.Some? {
        Refuse(call);
        return Some(Refused(initializeError.value));
      }
      if |available| > 0 {
        var context := TakeLast(call);
        return Some(Leased(context));
      }
      Enqueue(call);
      answer := None;
    }

    /** Valid() but for one context that is neither owned nor available, and perhaps for a missing initializer. */
    ghost predicate ValidBut(context: Context)
      reads this
    {
      && Owned() && InOrder()
      && (waiting != [] ==> available == [] && initializeError.None?)
      && NoDuplicates(available) && Elements(available) !! owner.Keys
      && context !in Elements(available) && context !in owner
      && |available| + |owner| + 1 == count <= limit && (initializing ==> count < limit)
    }

    /** A free context belongs to the oldest waiting call, before any new one can take it. */
    method Handoff(context: Context)
      requires ValidBut(context)
      modifies this`available, this`waiting, this`owner, this`answers, this`served
      ensures Conserved() && Owned() && InOrder()
      ensures waiting != [] ==> available == [] && initializeError.None? && owner != map[]
      ensures old(waiting) == [] ==>
                && available == old(available) + [context] && waiting == []
                && owner == old(owner) && answers == old(answers) && served == old(served)
      ensures old(waiting) != [] ==>
                && waiting == old(waiting)[1..] && available == old(available) && served == old(served) + 1
                && owner == old(owner)[context := old(waiting)[0]]
                && answers == old(answers)[old(waiting)[0] := Leased(context)]
    {
      hide Owned, InOrder, Conserved, NoDuplicates, Elements;
      if |waiting| == 0 {
        PutBack(context);
        return;
      }
      Serve(context);
    }

    method PutBack(context: Context)
      requires ValidBut(context) && waiting == []
      modifies this`available
      ensures Conserved() && available == old(available) + [context]
    {
      hide Owned, InOrder;
      available := available + [context];
      assert Elements(available) == Elements(old(available)) + {context};
    }

    method Serve(context: Context)
      requires ValidBut(context) && waiting != []
      modifies this`waiting, this`owner, this`answers, this`served
      ensures Conserved() && Owned() && InOrder()
      ensures waiting == old(waiting)[1..] && served == old(served) + 1 && owner != map[]
      ensures owner == old(owner)[context := old(waiting)[0]]
      ensures answers == old(answers)[old(waiting)[0] := Leased(context)]
    {
      hide ServedInOrder, OwnersAnswered, NoDuplicates, Elements;
      var ready := waiting[0];
      ServingKeepsOrder(queued, served, calls, answers, Leased(context));
      LeasingKeepsOwners(owner, answers, calls, context, ready);
      LeaseCounts(owner, context, ready);
      waiting := waiting[1..];
      served := served + 1;
      owner := owner[context := ready];
      answers := answers[ready := Leased(context)];
    }

    /** A caller gives its context back. */
    method Release(context: Context)
      requires Valid() && context in owner
      modifies this`available, this`waiting, this`owner, this`answers, this`served
      ensures Valid() && count == old(count)
      ensures old(waiting) == [] ==>
                available == old(available) + [context] && owner == old(owner) - {context} && answers == old(answers)
      ensures old(waiting) != [] ==>
                && served == old(served) + 1 && owner == old(owner)[context := old(waiting)[0]]
                && answers == old(answers)[old(waiting)[0] := Leased(context)]
    {
      hide InOrder, Owned, Conserved;
      Disown(context);
      Handoff(context);
    }

    method Disown(context: Context)
      requires Valid() && context in owner
      modifies this`owner
      ensures ValidBut(context) && owner == old(owner) - {context}
      ensures waiting != [] && count < limit ==> initializing
    {
      hide InOrder;
      owner := owner - {context};
      assert owner.Keys == old(owner).Keys - {context};
      assert |owner| == |owner.Keys| && |old(owner)| == |old(owner).Keys|;
      assert context !in Elements(available) by {
        assert context in old(owner).Keys;
      }
      assert Owned();
    }

    /** The initializer ends with a new context, or fails every call that waits and all calls to come. */
    method GrowEnds(result: Result<Context, string>)
      requires Valid() && initializing
      requires result.Success? ==> result.value !in available && result.value !in owner
      modifies this
      ensures Valid()
      ensures result.Success? ==>
                && count == old(count) + 1 && initializeError == old(initializeError)
                && initializing == (waiting != [] && count < limit)
                && (if old(waiting) == [] then
                      available == old(available) + [result.value] && owner == old(owner) && answers == old(answers)
                    else
                      && served == old(served) + 1 && owner == old(owner)[result.value := old(waiting)[0]]
                      && answers == old(answers)[old(waiting)[0] := Leased(result.value)])
      ensures result.Failure? ==>
                && initializeError == Some(result.error) && waiting == [] && !initializing
                && count == old(count) && available == old(available) && owner == old(owner)
                && (forall k :: k in old(waiting) ==> k in answers && answers[k] == Refused(result.error))
                && (forall k :: k in answers <==> k in old(answers) || k in old(waiting))
                && forall k :: k in old(answers) ==> answers[k] == old(answers)[k]
    {
      match result
      case Success(context) =>
        hide Owned, InOrder, Conserved;
        Added(context);
        Handoff(context);
        GrowIfNeeded();
      case Failure(error) =>
        hide Owned, InOrder;
        initializing, initializeError := false, Some(error);
        RefuseWaiting(error);
    }

    method Added(context: Context)
      requires Valid() && initializing && context !in available && context !in owner
      modifies this`initializing, this`count
      ensures ValidBut(context) && !initializing && count == old(count) + 1
    {
      hide Owned, InOrder;
      initializing := false;
      count := count + 1;
    }

    method RefuseWaiting(error: string)
      requires Owned() && InOrder()
      modifies this`waiting, this`answers, this`served
      ensures Owned() && InOrder() && waiting == []
      ensures forall k :: k in old(waiting) ==> k in answers && answers[k] == Refused(error)
      ensures forall k :: k in answers <==> k in old(answers) || k in old(waiting)
      ensures forall k :: k in old(answers) ==> answers[k] == old(answers)[k]
    {
      for i := 0 to |waiting|
        invariant waiting == old(waiting) && served == old(served) && Owned()
        invariant forall k :: k in answers <==> (k in old(answers) || k in waiting[..i])
        invariant forall k :: k in old(answers) ==> answers[k] == old(answers)[k]
        invariant forall k :: k in waiting[..i] ==> answers[k] == Refused(error)
      {
        assert waiting[i] == queued[served + i];
        answers := answers[waiting[i] := Refused(error)];
      }
      served := |queued|;
      waiting := [];
    }
  }

  /** A step of a caller or of the initializer. */
  datatype Event = Acquire | Release(context: Context) | GrowEnds(result: Result<Context, string>)

  /** Every interleaving of calls, returned contexts and ends of initializers keeps the pool's promises; steps that
    * cannot happen are left out.
    */
  method Run(first: Context, limit: nat, events: seq<Event>) returns (pool: ProverPool)
    requires limit >= 1
    ensures fresh(pool) && pool.Valid() && pool.limit == limit
    ensures |pool.available| + |pool.owner| == pool.count <= limit
    ensures forall c, d :: c in pool.owner && d in pool.owner && pool.owner[c] == pool.owner[d] ==> c == d
    ensures forall k :: k in pool.waiting ==> k !in pool.answers && pool.available == [] && (pool.owner != map[] || pool.initializing)
    ensures forall i, j :: 0 <= i < j < |pool.queued| && pool.queued[j] in pool.answers ==> pool.queued[i] in pool.answers
  {
    pool := new ProverPool(first, limit);
    for i := 0 to |events|
      invariant fresh(pool) && pool.Valid() && pool.limit == limit
    {
      match events[i]
      case Acquire => var answer := pool.Acquire();
      case Release(context) =>
        if context in pool.owner {
          pool.Release(context);
        }
      case GrowEnds(result) =>
        if pool.initializing && (result.Success? ==> result.value !in pool.available && result.value !in pool.owner) {
          pool.GrowEnds(result);
        }
    }
  }
}
