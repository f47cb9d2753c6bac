/** The judge's loop: it plays matches and asks for verdicts until every leader of the timeline is verified. */
module RoundRunner {
  import opened Wrappers
  import opened Timeline

  datatype Outcome = Finalized(winner: Hotkey) | NoBaseline | Stopped

  function Names(hotkeys: seq<Hotkey>): set<Hotkey> {
    (set h | h in hotkeys) + {LEADER}
  }

  /** The matches of the round that are not cached. */
  function Uncached(hotkeys: seq<Hotkey>, matches: Matches): set<Pair> {
    (set a, b | a in Names(hotkeys) && b in Names(hotkeys) :: Pair(a, b)) - matches.Keys
  }

  lemma CachingShrinks(hotkeys: seq<Hotkey>, matches: Matches, match_: Pair, margin: real)
    requires match_ in Uncached(hotkeys, matches)
    ensures Uncached(hotkeys, matches[match_ := margin]) == Uncached(hotkeys, matches) - {match_}
    ensures |Uncached(hotkeys, matches[match_ := margin])| == |Uncached(hotkeys, matches)| - 1
  {
  }

  /** Candidates and defenders are competitors of the round. */
  lemma {:induction false} EntriesAreNamed(c: Cache, hotkeys: seq<Hotkey>)
    ensures Standings(c, hotkeys).defender in Names(hotkeys)
    ensures forall e :: e in Entries(c, hotkeys) ==> e.hotkey in hotkeys && e.defender in Names(hotkeys)
    ensures forall e :: e in Entries(c, hotkeys) && e.status == Pending ==> Pair(e.defender, e.hotkey) !in c.matches
    ensures forall e :: e in Entries(c, hotkeys) && e.status == Won ==> e.margin.Some?
  {
    if hotkeys != [] {
      var n := |hotkeys| - 1;
      EntriesAreNamed(c, hotkeys[..n]);
      assert hotkeys == hotkeys[..n] + [hotkeys[n]];
    }
  }

  lemma {:induction false} ContendersAreEntries(entries: seq<Entry>)
    ensures forall e :: e in Contenders(entries) ==> e in entries
  {
    if entries != [] { ContendersAreEntries(entries[..|entries| - 1]); }
  }

  /** A leader that holds up the round: every leader before it is verified, it has not failed a check, it has not
    * passed both, and its validation has been asked for.
    */
  predicate HoldsUp(c: Cache, leaders: seq<Entry>, requests: seq<Hotkey>, i: nat)
    requires i < |leaders|
  {
    var h := leaders[i].hotkey;
    && !leaders[i].verified && (forall k :: 0 <= k < i ==> leaders[k].verified)
    && Reason(c, h).None? && (h !in c.validations || h !in c.audits)
    && h in requests
  }

  /** Nothing is left to do but to wait for a verdict. */
  predicate Blocked(c: Cache, hotkeys: seq<Hotkey>, requests: seq<Hotkey>) {
    var entries := Entries(c, hotkeys);
    && NonePending(entries) && AllHaveMet(Contenders(entries), c.matches)
    && exists i :: 0 <= i < |Leaders(entries)| && HoldsUp(c, Leaders(entries), requests, i)
  }

  lemma UnfinalizedIsHeldUp(c: Cache, hotkeys: seq<Hotkey>, requests: seq<Hotkey>) returns (i: nat)
    requires NonePending(Entries(c, hotkeys)) && !Timeline.Finalized(Entries(c, hotkeys))
    requires forall e :: e in Entries(c, hotkeys) && e.status == Won ==> e.hotkey in requests
    ensures i < |Leaders(Entries(c, hotkeys))| && HoldsUp(c, Leaders(Entries(c, hotkeys)), requests, i)
  {
    var leaders := Leaders(Entries(c, hotkeys));
    LeadersAreChain(c, hotkeys);
    LeadersAreWon(Entries(c, hotkeys));
    FinalizedIffLastVerified(c, hotkeys);
    i := 0;
    while leaders[i].verified
      invariant i < |leaders| && forall k :: 0 <= k < i ==> leaders[k].verified
      decreases |leaders| - i
    {
      i := i + 1;
    }
    assert IsLink(c, leaders, i) && leaders[i] in leaders;
    if i > 0 { assert IsLink(c, leaders, i - 1); }
    assert forall k :: 0 <= k < i ==> PassedBoth(c, leaders[k].hotkey);
    assert !PassedBoth(c, leaders[i].hotkey);
  }

  /** The candidate is out or has met the leader. */
  predicate MetLeader(c: Cache, h: Hotkey) {
    Reason(c, h).Some? || Pair(LEADER, h) in c.matches
  }

  lemma RejectedMetLeader(c: Cache, h: Hotkey)
    requires RejectionReason(Lookup(c.validations, h), Lookup(c.audits, h)).Some?
    ensures MetLeader(c, h)
  {
  }

  lemma MatchIsKept(earlier: Cache, later: Cache, h: Hotkey)
    requires Extends(later, earlier) && Pair(LEADER, h) in earlier.matches
    ensures MetLeader(later, h)
  {
  }

  lemma MeetingIsKept(earlier: Cache, later: Cache, h: Hotkey)
    requires Extends(later, earlier) && MetLeader(earlier, h)
    ensures MetLeader(later, h)
  {
  }

  lemma ExtendsItself(c: Cache)
    ensures Extends(c, c)
  {
  }

  lemma ExtendsTransitively(c: Cache, b: Cache, a: Cache)
    requires Extends(c, b) && Extends(b, a)
    ensures Extends(c, a)
  {
  }

  lemma UnmetIsNamed(entries: seq<Entry>, matches: Matches, i: nat, j: nat, duel: Pair)
    requires FirstUnmet(Contenders(entries), matches, i, j, duel)
    ensures duel !in matches
    ensures exists e, f :: e in entries && f in entries && duel == Pair(e.hotkey, f.hotkey)
  {
    ContendersAreEntries(entries);
    var e, f := Contenders(entries)[i], Contenders(entries)[j];
    assert e in Contenders(entries) && f in Contenders(entries);
  }

  class RoundRunner {
    const hotkeys: seq<Hotkey>
    const winMargin: real
    var matches: Matches
    var requests: seq<Hotkey>
    var validations: map<Hotkey, Judgement>
    var audits: map<Hotkey, Judgement>
    var stopped: bool

    /** Matches that were run, and whether anything may have been decided since verdicts were last looked at. */
    ghost var played: nat
    ghost var stale: bool

    function Cached(): Cache
      reads this`matches, this`validations, this`audits
    {
      Cache(matches, winMargin, validations, audits)
    }

    predicate DistinctRequests()
      reads this`requests
    {
      forall i, j :: 0 <= i < j < |requests| ==> requests[i] != requests[j]
    }

    /** Every candidate that is still in the round has met the leader. */
    predicate AllMetLeader()
      reads this`matches, this`validations, this`audits
    {
      forall i :: 0 <= i < |hotkeys| ==> MetLeader(Cached(), hotkeys[i])
    }

    constructor (hotkeys: seq<Hotkey>, winMargin: real, matches: Matches)
      ensures this.hotkeys == hotkeys && this.matches == matches && requests == [] && !stopped && played == 0 && stale
    {
      this.hotkeys, this.winMargin, this.matches := hotkeys, winMargin, matches;
      requests, validations, audits, stopped, played, stale := [], map[], map[], false, 0, true;
    }

    /** Verdicts are only ever added. */
    method Reload()
      modifies this`validations, this`audits, this`stale
      ensures Extends(Cached(), old(Cached())) && !stale
    {
      stale := false;
      var newValidations: map<Hotkey, Judgement>, newAudits: map<Hotkey, Judgement> := *, *;
      validations := newValidations + validations;
      audits := newAudits + audits;
    }

    /** Asks once for the validation of every candidate that took the lead. */
    method RequestValidations(entries: seq<Entry>)
      requires DistinctRequests()
      modifies this`requests
      ensures DistinctRequests() && old(requests) <= requests
      ensures forall h :: h in requests <==> h in old(requests) || exists e :: e in Leaders(entries) && e.hotkey == h && e.margin.Some?
    {
      LeadersAreWon(entries);
      for i := 0 to |entries|
        invariant DistinctRequests() && old(requests) <= requests
        invariant forall h :: h in requests <==> (
                    h in old(requests) || exists e :: e in entries[..i] && e.status == Won && e.hotkey == h && e.margin.Some?)
      {
        assert entries[..i + 1] == entries[..i] + [entries[i]];
        if entries[i].status != Won || entries[i].margin.None? {
          continue;
        }
        if entries[i].hotkey in requests {
          continue;
        }
        requests := requests + [entries[i].hotkey];
      }
      assert entries[..|entries|] == entries;
    }

    /** Results still to be had. */
    ghost function Left(): nat
      reads this`matches
    {
      |Uncached(hotkeys, matches)|
    }

    /** Runs a match unless its result is cached; the result of a match interrupted by a shutdown is dropped. */
    method EnsureMatch(left: Hotkey, right: Hotkey) returns (fromCache: bool)
      requires !stopped && left in Names(hotkeys) && right in Names(hotkeys)
      modifies this`matches, this`stopped, this`played, this`stale
      ensures stale == (old(stale) || !fromCache)
      ensures fromCache <==> Pair(left, right) in old(matches)
      ensures stopped || Pair(left, right) in matches
      ensures fromCache ==> matches == old(matches) && !stopped && played == old(played)
      ensures Extends(Cached(), old(Cached()))
      ensures !fromCache ==> played == old(played) + 1 && Left() == old(Left()) - if stopped then 0 else 1
    {
      if Pair(left, right) in matches {
        return true;
      }
      var margin: real, shutdown: bool := *, *;
      played, stopped, stale := played + 1, shutdown, true;
      fromCache := false;
      if stopped {
        return;
      }
      CachingShrinks(hotkeys, matches, Pair(left, right), margin);
      matches := matches[Pair(left, right) := margin];
    }

    /** What a run keeps true of what it started from: results are only added, and every match run adds one, but for
      * the one that a shutdown interrupts.
      */
    twostate predicate Progressed()
      reads this
    {
      && Extends(Cached(), old(Cached()))
      && old(requests) <= requests && DistinctRequests()
      && played + Left() <= old(played + Left()) + if stopped then 1 else 0
    }

    /** Every candidate that is not out meets the leader. */
    method Qualify()
      requires !stopped && DistinctRequests() && !stale
      modifies this`matches, this`validations, this`audits, this`stopped, this`played, this`stale
      ensures Progressed() && (stopped || AllMetLeader()) && !stale
    {
      hide Extends, Reason, Left, DistinctRequests;
      ghost var start := Cached();
      ExtendsItself(start);
      for i := 0 to |hotkeys|
        invariant Progressed() && requests == old(requests) && !stale
        invariant stopped || forall k :: 0 <= k < i ==> MetLeader(Cached(), hotkeys[k])
      {
        if stopped {
          break;
        }
        ghost var before := Cached();
        if RejectionReason(Lookup(validations, hotkeys[i]), Lookup(audits, hotkeys[i])).Some? {
          RejectedMetLeader(before, hotkeys[i]);
          continue;
        }
        var fromCache := EnsureMatch(LEADER, hotkeys[i]);
        ghost var between := Cached();
        if !fromCache {
          Reload();
        } else {
          ExtendsItself(between);
        }
        ExtendsTransitively(Cached(), between, before);
        ExtendsTransitively(Cached(), before, start);
        forall k | 0 <= k <= i && !stopped ensures MetLeader(Cached(), hotkeys[k]) {
          if k < i { MeetingIsKept(before, Cached(), hotkeys[k]); } else { MatchIsKept(between, Cached(), hotkeys[i]); }
        }
      }
    }

    /** One attempt to advance the timeline: finalize, run the missing match, or run a duel that may be needed later. */
    method Advance() returns (outcome: Option<Outcome>, idle: bool, fromCache: bool)
      requires !stopped && DistinctRequests() && !stale
      modifies this`matches, this`requests, this`stopped, this`played, this`stale
      ensures stale == (outcome.None? && !idle && !fromCache)
      ensures DistinctRequests() && old(requests) <= requests && Extends(Cached(), old(Cached()))
      ensures outcome.Some? ==>
                && matches == old(matches) && played == old(played) && !stopped
                && outcome.value == Finalized(Winner(Entries(Cached(), hotkeys)))
                && Timeline.Finalized(Entries(Cached(), hotkeys))
      ensures outcome.None? && idle ==>
                && matches == old(matches) && played == old(played) && !stopped
                && Blocked(Cached(), hotkeys, requests)
      ensures outcome.None? && !idle ==>
                !fromCache && played == old(played) + 1 && Left() == old(Left()) - if stopped then 0 else 1
    {
      hide Standings, Extends, Left, Leaders, Contenders, Uncached, Reason, HoldsUp, FirstUnmet, NonePending, Timeline.Finalized;
      ExtendsItself(Cached());
      outcome, idle, fromCache := None, false, true;
      var entries := Derive(Cached(), hotkeys);
      EntriesAreNamed(Cached(), hotkeys);
      RequestValidations(entries);
      var finalized := IsFinalized(entries);
      if finalized {
        outcome := Some(Finalized(Winner(entries)));
        return;
      }
      var next := NextMatch(entries);
      if next.Some? {
        fromCache := EnsureMatch(next.value.left, next.value.right);
        return;
      }
      var exploratory := FindExploratoryDuel(entries, matches);
      if exploratory.Some? {
        ghost var i: nat, j: nat :| FirstUnmet(Contenders(entries), matches, i, j, exploratory.value);
        UnmetIsNamed(entries, matches, i, j, exploratory.value);
        fromCache := EnsureMatch(exploratory.value.left, exploratory.value.right);
        return;
      }
      idle := true;
      LeadersAreWon(entries);
      ghost var i := UnfinalizedIsHeldUp(Cached(), hotkeys, requests);
    }

    /** The round waits for verdicts, and only then. */
    method Await(patience: nat)
      requires Blocked(Cached(), hotkeys, requests)
      modifies this`stopped, this`stale
      ensures (patience == 0 ==> stopped) && stale
    {
      stale := true;
      var shutdown: bool := *;
      stopped := patience == 0 || shutdown;
    }

    /** The whole run of a round; patience is how often it may wake up before a shutdown. It runs at most one match
      * for each pair of competitors and one more that a shutdown interrupts, and what it finalizes never changes.
      */
    method Run(baselineComplete: bool, patience: nat) returns (outcome: Outcome)
      requires !stopped && DistinctRequests()
      modifies this
      ensures Progressed()
      ensures outcome.Finalized? ==>
                && HoldsLead(Entries(Cached(), hotkeys), |Entries(Cached(), hotkeys)|, outcome.winner)
                && Timeline.Finalized(Entries(Cached(), hotkeys)) && NeverChanges(Cached(), hotkeys)
      ensures outcome.Stopped? ==> stopped
      ensures outcome.NoBaseline? <==> hotkeys != [] && !baselineComplete
    {
      hide Standings, Left, Leaders, Reason, Blocked, Timeline.Finalized, NeverChanges, Extends, MetLeader, DistinctRequests;
      ghost var start := Cached();
      ExtendsItself(start);
      if hotkeys == [] {
        EmptyRound(start, hotkeys);
        return Finalized(LEADER);
      }
      if !baselineComplete {
        return NoBaseline;
      }
      Reload();
      label loaded:
      Qualify();
      ExtendsTransitively(Cached(), old@loaded(Cached()), start);
      var reloadNeeded, wakeUps := false, patience;
      while !stopped
        invariant Progressed() && (stopped || AllMetLeader())
        invariant stale ==> reloadNeeded
        decreases if stopped then 0 else 1, wakeUps, Left()
      {
        ghost var before := Cached();
        if reloadNeeded {
          Reload();
        } else {
          ExtendsItself(before);
        }
        ghost var between := Cached();
        var result, idle, fromCache := Advance();
        ExtendsTransitively(Cached(), between, before);
        ExtendsTransitively(Cached(), before, start);
        forall i | 0 <= i < |hotkeys| ensures MetLeader(Cached(), hotkeys[i]) {
          MeetingIsKept(before, Cached(), hotkeys[i]);
        }
        if result.Some? {
          FinalizedForGood(Cached(), hotkeys);
          WinnerHoldsLead(Entries(Cached(), hotkeys));
          return result.value;
        }
        if idle {
          Await(wakeUps);
          wakeUps, reloadNeeded := if wakeUps == 0 then 0 else wakeUps - 1, true;
        } else {
          reloadNeeded := !fromCache;
        }
      }
      outcome := Stopped;
    }
  }

  lemma EmptyRound(c: Cache, hotkeys: seq<Hotkey>)
    requires hotkeys == []
    ensures HoldsLead(Entries(c, hotkeys), |Entries(c, hotkeys)|, LEADER) && Timeline.Finalized(Entries(c, hotkeys)) && NeverChanges(c, hotkeys)
  {
  }

  lemma FinalizedForGood(c: Cache, hotkeys: seq<Hotkey>)
    requires Timeline.Finalized(Entries(c, hotkeys))
    requires forall i :: 0 <= i < |hotkeys| ==> MetLeader(c, hotkeys[i])
    ensures NeverChanges(c, hotkeys)
  {
    StableIffSettled(c, hotkeys);
    assert forall h :: h in hotkeys ==> MetLeader(c, h);
  }
}
